/**
 The reflective conversion of pkg/conversion/converter.go, as functions: what convert, defaultConvert,
 convertKV and checkField compute. Values are trees (nothing is shared), struct fields are looked up
 by name, and the order in which a map is ranged over is a parameter.
 */
module ConverterSpec {
  import opened Wrappers

  type TypeId = nat

  datatype FieldDesc = FieldDesc(name: string, tag: string, t: TypeId)

  datatype Desc =
    | BasicT
    | PtrT(elem: TypeId)
    | SliceT(elem: TypeId)
    | MapT(key: TypeId, elem: TypeId)
    | IfaceT
    | StructT(fields: seq<FieldDesc>)

  datatype Value =
    | VBasic(t: TypeId, bits: int)
    | VNil(t: TypeId)                             // nil pointer, slice, map or interface
    | VPtr(t: TypeId, target: Value)
    | VSlice(t: TypeId, elems: seq<Value>)
    | VMap(t: TypeId, m: map<Value, Value>)
    | VIface(t: TypeId, dyn: Value)
    | VStruct(t: TypeId, fields: map<string, Value>)

  /** The Go types in play and what reflection says about them. */
  datatype Universe = Universe(
    desc: TypeId -> Desc,
    name: TypeId -> string,                       // the converter's nameFunc
    zero: TypeId -> Value,
    assignable: (TypeId, TypeId) -> bool,         // of basic types: AssignableTo, and what Set then stores
    assign: (Value, TypeId) -> Value,
    convertible: (TypeId, TypeId) -> bool,        // of basic types: ConvertibleTo, and what Convert gives
    convert: (Value, TypeId) -> Value,
    implements: (TypeId, TypeId) -> bool,
    stringKey: TypeId -> bool,                    // AssignableTo(string)
    keyOf: (TypeId, string) -> Value,             // a string as a map key
    exported: string -> bool,
    order: map<Value, Value> -> seq<Value>)       // MapKeys

  datatype Flags = Flags(sourceToDest: bool, ignoreMissing: bool, allowNames: bool)

  datatype Outcome = Done(v: Value) | Failed | Panicked

  /** A registered conversion function: source, destination, flags and the two struct tags it can see. */
  type CustomFn = (Value, Value, Flags, string, string) -> Outcome

  type Pair = (TypeId, TypeId)
  type FieldRule = (TypeId, string)

  /** The converter. `size` and `rank` are the evidence that a conversion cannot recurse for ever. */
  datatype Converter = Converter(
    u: Universe,
    conversionFuncs: map<Pair, CustomFn>,
    generatedConversionFuncs: map<Pair, CustomFn>,
    ignoredConversions: set<Pair>,
    defaultingFuncs: map<TypeId, Value -> Value>,
    structFieldDests: map<FieldRule, seq<FieldRule>>,
    structFieldSources: map<FieldRule, seq<FieldRule>>,
    mapping: Option<(string, string, string) -> (string, string)>,   // meta.KeyNameMapping
    size: Value -> nat,
    rank: TypeId -> nat)

  datatype Ctx = Ctx(c: Converter, fl: Flags)

  predicate Child(c: Value, v: Value) {
    match v
    case VBasic(_, _) => false
    case VNil(_) => false
    case VPtr(_, target) => c == target
    case VSlice(_, es) => c in es
    case VMap(_, m) => c in m.Keys || c in m.Values
    case VIface(_, d) => c == d
    case VStruct(_, fs) => c in fs.Values
  }

  /** Parts are smaller, defaulting does not grow a value or change its type, pointer types are finite. */
  ghost predicate Valid(c: Converter) {
    && (forall v, w :: Child(w, v) ==> c.size(w) < c.size(v))
    && (forall t, v :: t in c.defaultingFuncs ==> DefaultingOk(c, t, v))
    && (forall t :: c.u.zero(t).t == t)
    && (forall t :: c.u.desc(t).PtrT? ==> c.rank(c.u.desc(t).elem) < c.rank(t))
    && (forall m: map<Value, Value>, k: Value :: k in c.u.order(m) ==> k in m)
  }

  ghost predicate DefaultingOk(c: Converter, t: TypeId, v: Value)
    requires t in c.defaultingFuncs
  {
    var w := c.defaultingFuncs[t](v);
    v.t == t ==> w.t == t && c.size(w) <= c.size(v)
  }

  // ----- kvValue -----

  predicate IsKV(u: Universe, v: Value) {
    v.VStruct? || ((v.VMap? || v.VNil?) && u.desc(v.t).MapT? && u.stringKey(u.desc(v.t).key))
  }

  function KVValue(u: Universe, v: Value, key: string): (r: Option<Value>)
    ensures r.Some? ==> Child(r.value, v)
  {
    match v
    case VStruct(_, fs) => if key in fs then assert fs[key] in fs.Values; Some(fs[key]) else None
    case VMap(t, m) =>
      if u.desc(t).MapT? then
        var k := u.keyOf(u.desc(t).key, key);
        if k in m then assert m[k] in m.Values; Some(m[k]) else None
      else None
    case _ => None
  }

  function FieldNames(fs: seq<FieldDesc>): (ns: seq<string>)
    ensures |ns| == |fs| && forall i :: 0 <= i < |fs| ==> ns[i] == fs[i].name
  {
    if |fs| == 0 then [] else [fs[0].name] + FieldNames(fs[1..])
  }

  function FindTag(fs: seq<FieldDesc>, key: string): string {
    if |fs| == 0 then "" else if fs[0].name == key then fs[0].tag else FindTag(fs[1..], key)
  }

  function TagOf(u: Universe, t: TypeId, key: string): string {
    match u.desc(t)
    case StructT(fs) => FindTag(fs, key)
    case _ => ""
  }

  /** keys(): a map adaptor's panics on its first key, because strings have no IsNil. */
  function Keys(u: Universe, v: Value): Option<seq<string>> {
    match v
    case VStruct(t, _) => (match u.desc(t) case StructT(fs) => Some(FieldNames(fs)) case _ => None)
    case VMap(_, m) => if |m| == 0 then Some([]) else None
    case _ => Some([])
  }

  // ----- convert and defaultConvert -----

  function Defaulted(c: Converter, sv: Value): Value {
    if sv.t in c.defaultingFuncs then c.defaultingFuncs[sv.t](sv) else sv
  }

  function CallCustom(x: Ctx, f: CustomFn, canSet: bool, sv: Value, dv: Value, stag: string, dtag: string): Outcome {
    if canSet then f(sv, dv, x.fl, stag, dtag) else Panicked
  }

  /**
   convert: defaults, then an ignored pair, a registered function, a generated one, or the default.
   `sa` says that the source is addressable, which map entries and interface contents are not;
   `canSet` that the destination can be set, which an unexported field cannot.
   */
  ghost function Conv(x: Ctx, sa: bool, sv: Value, canSet: bool, dv: Value, stag: string, dtag: string): Outcome
    requires Valid(x.c)
    decreases x.c.size(sv), x.c.rank(dv.t), 6
  {
    var pair := (sv.t, dv.t);
    var sv' := Defaulted(x.c, sv);
    assert sv.t in x.c.defaultingFuncs ==> DefaultingOk(x.c, sv.t, sv);
    if sv.t in x.c.defaultingFuncs && !sa then Panicked
    else if pair in x.c.ignoredConversions then Done(dv)
    else if pair in x.c.conversionFuncs then CallCustom(x, x.c.conversionFuncs[pair], canSet, sv', dv, stag, dtag)
    else if pair in x.c.generatedConversionFuncs then
      CallCustom(x, x.c.generatedConversionFuncs[pair], canSet, sv', dv, stag, dtag)
    else DefConv(x, sa, sv', canSet, dv)
  }

  ghost function DefConv(x: Ctx, sa: bool, sv: Value, canSet: bool, dv: Value): Outcome
    requires Valid(x.c)
    decreases x.c.size(sv), x.c.rank(dv.t), 5
  {
    var u := x.c.u;
    if !canSet then Failed
    else if !x.fl.allowNames && u.name(dv.t) != u.name(sv.t) then Failed
    else if sv.VBasic? && u.assignable(sv.t, dv.t) then Done(u.assign(sv, dv.t))
    else if sv.VBasic? && u.convertible(sv.t, dv.t) then Done(u.convert(sv, dv.t))
    else KindConv(x, sa, sv, dv)
  }

  /** The switch over the destination's kind. IsNil panics on kinds that have no nil. */
  ghost function KindConv(x: Ctx, sa: bool, sv: Value, dv: Value): Outcome
    requires Valid(x.c)
    decreases x.c.size(sv), x.c.rank(dv.t), 4
  {
    var u, dt := x.c.u, dv.t;
    match u.desc(dt)
    case StructT(_) => StructConv(x, sa, sv, dv)
    case SliceT(e) =>
      (match sv
       case VNil(_) => Done(VNil(dt))
       case VSlice(_, _) => SliceFrom(x, sv, dt, e, 0, [])
       case _ => Panicked)
    case PtrT(e) =>
      (match sv
       case VNil(_) => Done(VNil(dt))
       case VPtr(_, target) => assert Child(target, sv); Boxed(dt, Conv(x, true, target, true, u.zero(e), "", ""))
       case VIface(_, d) => assert Child(d, sv); Boxed(dt, Conv(x, false, d, true, u.zero(e), "", ""))
       case VBasic(_, _) => Panicked
       case VStruct(_, _) => Panicked
       case _ => Boxed(dt, Conv(x, sa, sv, true, u.zero(e), "", "")))
    case MapT(k, e) =>
      (match sv
       case VNil(_) => Done(VNil(dt))
       case VMap(_, m) => MapFrom(x, sv, dt, k, e, u.order(m), 0, map[])
       case _ => Panicked)
    case IfaceT =>
      (match sv
       case VNil(_) => Done(VNil(dt))
       case VPtr(_, target) => assert Child(target, sv); Stored(u, dt, Conv(x, true, target, true, u.zero(target.t), "", ""))
       case VIface(_, d) => assert Child(d, sv); Stored(u, dt, Conv(x, false, d, true, u.zero(d.t), "", ""))
       case _ => Panicked)
    case BasicT => Failed
  }

  function Boxed(dt: TypeId, o: Outcome): Outcome {
    match o
    case Done(v) => Done(VPtr(dt, v))
    case _ => o
  }

  /** dv.Set(reflect.ValueOf(tmp.Interface())): the dynamic value, which must implement the interface. */
  function Stored(u: Universe, dt: TypeId, o: Outcome): Outcome {
    match o
    case Done(v) =>
      var d := if v.VIface? then v.dyn else v;
      if (v.VNil? && u.desc(v.t).IfaceT?) || !u.implements(d.t, dt) then Panicked else Done(VIface(dt, d))
    case _ => o
  }

  ghost function SliceFrom(x: Ctx, sv: Value, dt: TypeId, e: TypeId, i: nat, outs: seq<Value>): Outcome
    requires Valid(x.c) && sv.VSlice? && i <= |sv.elems|
    decreases x.c.size(sv), 0, 3, |sv.elems| - i
  {
    if i == |sv.elems| then Done(VSlice(dt, outs))
    else
      assert Child(sv.elems[i], sv);
      match Conv(x, true, sv.elems[i], true, x.c.u.zero(e), "", "")
      case Done(r) => SliceFrom(x, sv, dt, e, i + 1, outs + [r])
      case o => o
  }

  ghost function MapFrom(
    x: Ctx, sv: Value, dt: TypeId, kt: TypeId, e: TypeId, keys: seq<Value>, i: nat, out: map<Value, Value>): Outcome
    requires Valid(x.c) && sv.VMap? && i <= |keys| && forall k :: k in keys ==> k in sv.m
    decreases x.c.size(sv), 0, 3, |keys| - i
  {
    if i == |keys| then Done(VMap(dt, out))
    else
      var k := keys[i];
      assert Child(k, sv);
      match Conv(x, false, k, true, x.c.u.zero(kt), "", "")
      case Done(dk) =>
        (assert sv.m[k] in sv.m.Values;
         assert Child(sv.m[k], sv);
         match Conv(x, false, sv.m[k], true, x.c.u.zero(e), "", "")
         case Done(r) => MapFrom(x, sv, dt, kt, e, keys, i + 1, out[dk := r])
         case o => o)
      case o => o
  }

  // ----- convertKV and checkField -----

  // `fa` below: the source's fields are addressable (the source is an addressable struct).

  /** The destination's fields so far, and the tags now on top of the two stacks. */
  datatype KV = KV(fields: map<string, Value>, stag: string, dtag: string)

  datatype KVOutcome = KVDone(kv: KV) | KVFailed | KVPanicked

  datatype Checked = Checked(found: bool, out: KVOutcome)

  function KVStore(kv: KV, key: string, o: Outcome): KVOutcome {
    match o
    case Done(r) => KVDone(kv.(fields := kv.fields[key := r]))
    case Failed => KVFailed
    case Panicked => KVPanicked
  }

  ghost function StructConv(x: Ctx, sa: bool, sv: Value, dv: Value): Outcome
    requires Valid(x.c)
    decreases x.c.size(sv), 0, 3, 0
  {
    var u := x.c.u;
    if !dv.VStruct? then Panicked
    else if !IsKV(u, sv) then Failed
    else
      match Keys(u, if x.fl.sourceToDest then sv else dv)
      case None => Panicked
      case Some(keys) =>
        match KVFrom(x, sa && sv.VStruct?, sv, dv.t, keys, 0, KV(dv.fields, "", ""))
        case KVDone(kv) => Done(VStruct(dv.t, kv.fields))
        case KVFailed => Failed
        case KVPanicked => Panicked
  }

  ghost function KVFrom(x: Ctx, fa: bool, sv: Value, dt: TypeId, keys: seq<string>, i: nat, kv: KV): KVOutcome
    requires Valid(x.c) && i <= |keys|
    decreases x.c.size(sv), 0, 2, |keys| - i
  {
    if i == |keys| then KVDone(kv)
    else
      match KVStep(x, fa, sv, dt, keys[i], kv)
      case KVDone(kv') => KVFrom(x, fa, sv, dt, keys, i + 1, kv')
      case o => o
  }

  ghost function KVStep(x: Ctx, fa: bool, sv: Value, dt: TypeId, key: string, kv: KV): KVOutcome
    requires Valid(x.c)
    decreases x.c.size(sv), 0, 1
  {
    var u := x.c.u;
    var ch := CheckField(x, fa, sv, key, kv);
    if ch.found then ch.out
    else
      var stag, dtag := if sv.VStruct? then TagOf(u, sv.t, key) else "", TagOf(u, dt, key);
      var (skey, dkey) := if x.c.mapping.Some? then x.c.mapping.value(key, stag, dtag) else (key, key);
      var sf := KVValue(u, sv, skey);
      if sf.None? || dkey !in kv.fields then
        if x.fl.ignoreMissing then KVDone(kv) else KVFailed
      else
        KVStore(KV(kv.fields, stag, dtag), dkey, Conv(x, fa, sf.value, u.exported(dkey), kv.fields[dkey], stag, dtag))
  }

  function Rules(m: map<FieldRule, seq<FieldRule>>, k: FieldRule): seq<FieldRule> {
    if k in m then m[k] else []
  }

  ghost function CheckField(x: Ctx, fa: bool, sv: Value, key: string, kv: KV): Checked
    requires Valid(x.c)
    decreases x.c.size(sv), 0, 0
  {
    if !x.fl.sourceToDest then
      if key !in kv.fields then Checked(false, KVDone(kv))
      else SourceRules(x, fa, sv, key, Rules(x.c.structFieldSources, (kv.fields[key].t, key)), 0, kv, false)
    else
      var sf := KVValue(x.c.u, sv, key);
      if sf.None? then Checked(false, KVDone(kv))
      else DestRules(x, fa, sv, key, sf.value, Rules(x.c.structFieldDests, (sf.value.t, key)), 0, kv, false)
  }

  ghost function SourceRules(
    x: Ctx, fa: bool, sv: Value, key: string, rules: seq<FieldRule>, j: nat, kv: KV, made: bool): Checked
    requires Valid(x.c) && j <= |rules| && key in kv.fields
    decreases x.c.size(sv), 0, 0, |rules| - j
  {
    if j == |rules| then Checked(made, KVDone(kv))
    else
      var sf := KVValue(x.c.u, sv, rules[j].1);
      if sf.None? || sf.value.t != rules[j].0 then SourceRules(x, fa, sv, key, rules, j + 1, kv, made)
      else
        match KVStore(kv, key, Conv(x, fa, sf.value, x.c.u.exported(key), kv.fields[key], kv.stag, kv.dtag))
        case KVDone(kv') => SourceRules(x, fa, sv, key, rules, j + 1, kv', true)
        case o => Checked(true, o)
  }

  ghost function DestRules(
    x: Ctx, fa: bool, sv: Value, key: string, sf: Value, rules: seq<FieldRule>, j: nat, kv: KV, made: bool): Checked
    requires Valid(x.c) && j <= |rules| && Child(sf, sv)
    decreases x.c.size(sv), 0, 0, |rules| - j
  {
    if j == |rules| then Checked(made, KVDone(kv))
    else
      var dkey := rules[j].1;
      if dkey !in kv.fields || kv.fields[dkey].t != rules[j].0 then DestRules(x, fa, sv, key, sf, rules, j + 1, kv, made)
      else
        match KVStore(kv, dkey, Conv(x, fa, sf, x.c.u.exported(dkey), kv.fields[dkey], kv.stag, kv.dtag))
        case KVDone(kv') => DestRules(x, fa, sv, key, sf, rules, j + 1, kv', true)
        case o => Checked(true, o)
  }
}
