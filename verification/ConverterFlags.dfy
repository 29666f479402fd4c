/**
 The two ways of walking struct fields (pkg/conversion/converter.go): SourceToDest loops over the source's
 fields, DestFromSource over the destination's. With IgnoreMissingFields, no field-copy rules and no key
 mapping they succeed on the same inputs and then build the same destination, at every nesting level, unless
 the conversion puts a non-empty string-keyed map into a struct: listing the keys of such a map panics.
 */
module ConverterFlags {
  import opened Wrappers
  import opened ConverterSpec
  import opened Permutations
  import opened ConverterRoundTrip

  /** Equal when either succeeds; which error comes first is left open. */
  ghost predicate Agree(a: Outcome, b: Outcome) {
    a.Done? || b.Done? ==> a == b
  }

  ghost predicate CustomAgrees(c: Converter, f: CustomFn, fl: Flags, sv: Value, dv: Value, stag: string, dtag: string) {
    Agree(f(sv, dv, fl.(sourceToDest := false), stag, dtag), f(sv, dv, fl.(sourceToDest := true), stag, dtag))
  }

  ghost predicate DirectionBlind(c: Converter, f: CustomFn, fl: Flags) {
    forall sv, dv, stag, dtag :: CustomAgrees(c, f, fl, sv, dv, stag, dtag)
  }

  ghost predicate DefaultTyped(c: Converter, t: TypeId, v: Value)
    requires t in c.defaultingFuncs
  {
    HasType(c.u, v, t) ==> HasType(c.u, c.defaultingFuncs[t](v), t)
  }

  ghost predicate DistinctNames(u: Universe, t: TypeId) {
    u.desc(t).StructT? ==> Distinct(FieldNames(u.desc(t).fields))
  }

  ghost predicate Comparable(c: Converter, fl: Flags) {
    && Valid(c) && fl.ignoreMissing
    && c.structFieldDests == map[] && c.structFieldSources == map[] && c.mapping == None
    && (forall t :: HasType(c.u, c.u.zero(t), t))
    && (forall t :: DistinctNames(c.u, t))
    && (forall t, v :: t in c.defaultingFuncs ==> DefaultTyped(c, t, v))
    && (forall p :: p in c.conversionFuncs ==> DirectionBlind(c, c.conversionFuncs[p], fl))
    && (forall p :: p in c.generatedConversionFuncs ==> DirectionBlind(c, c.generatedConversionFuncs[p], fl))
  }

  function FromSource(c: Converter, fl: Flags): Ctx {
    Ctx(c, fl.(sourceToDest := true))
  }

  function FromDest(c: Converter, fl: Flags): Ctx {
    Ctx(c, fl.(sourceToDest := false))
  }

  // ----- one struct: what the field loop does, whichever list of keys it walks -----

  predicate Shared(sv: Value, dv: Value, n: string)
    requires sv.VStruct? && dv.VStruct?
  {
    n in sv.fields && n in dv.fields
  }

  /** The conversion of the one field n, into what the destination held there. */
  ghost function FieldConv(x: Ctx, fa: bool, sv: Value, dv: Value, n: string): Outcome
    requires Valid(x.c) && sv.VStruct? && dv.VStruct? && Shared(sv, dv, n)
  {
    Conv(x, fa, sv.fields[n], x.c.u.exported(n), dv.fields[n], TagOf(x.c.u, sv.t, n), TagOf(x.c.u, dv.t, n))
  }

  ghost predicate Simple(x: Ctx) {
    && Valid(x.c) && x.fl.ignoreMissing
    && x.c.structFieldDests == map[] && x.c.structFieldSources == map[] && x.c.mapping == None
  }

  lemma {:induction false} SimpleStep(x: Ctx, fa: bool, sv: Value, dv: Value, n: string, kv: KV)
    requires Simple(x) && sv.VStruct? && dv.VStruct? && kv.fields.Keys == dv.fields.Keys
    requires Shared(sv, dv, n) ==> kv.fields[n] == dv.fields[n]
    ensures var o := KVStep(x, fa, sv, dv.t, n, kv);
            if !Shared(sv, dv, n) then o == KVDone(kv)
            else if FieldConv(x, fa, sv, dv, n).Done? then
              o.KVDone? && o.kv.fields == kv.fields[n := FieldConv(x, fa, sv, dv, n).v]
            else !o.KVDone?
  {
    assert CheckField(x, fa, sv, n, kv) == Checked(false, KVDone(kv));
  }

  /** The fields named in keys[i..] that both structs have are still to be converted. */
  ghost predicate Untouched(sv: Value, dv: Value, keys: seq<string>, i: nat, fields: map<string, Value>)
    requires sv.VStruct? && dv.VStruct?
  {
    && i <= |keys| && fields.Keys == dv.fields.Keys
    && forall j :: i <= j < |keys| && Shared(sv, dv, keys[j]) ==> fields[keys[j]] == dv.fields[keys[j]]
  }

  ghost predicate AllDone(x: Ctx, fa: bool, sv: Value, dv: Value, keys: seq<string>, i: nat)
    requires Valid(x.c) && sv.VStruct? && dv.VStruct?
  {
    forall j :: 0 <= i <= j < |keys| && Shared(sv, dv, keys[j]) ==> FieldConv(x, fa, sv, dv, keys[j]).Done?
  }

  /** After the loop: shared fields among the walked keys are converted, all others as before. */
  ghost predicate Walked(x: Ctx, fa: bool, sv: Value, dv: Value, keys: seq<string>, i: nat,
                         fields: map<string, Value>, fields': map<string, Value>)
    requires Valid(x.c) && sv.VStruct? && dv.VStruct?
  {
    && fields'.Keys == fields.Keys == dv.fields.Keys
    && forall n :: n in dv.fields ==>
         if i <= |keys| && n in keys[i..] && Shared(sv, dv, n)
         then fields'[n] == (var o := FieldConv(x, fa, sv, dv, n); if o.Done? then o.v else dv.fields[n])
         else fields'[n] == fields[n]
  }

  lemma {:induction false} LoopIsFieldwise(x: Ctx, fa: bool, sv: Value, dv: Value, keys: seq<string>, i: nat, kv: KV)
    requires Simple(x) && sv.VStruct? && dv.VStruct? && Distinct(keys) && Untouched(sv, dv, keys, i, kv.fields)
    ensures var o := KVFrom(x, fa, sv, dv.t, keys, i, kv);
            && (o.KVDone? <==> AllDone(x, fa, sv, dv, keys, i))
            && (o.KVDone? ==> Walked(x, fa, sv, dv, keys, i, kv.fields, o.kv.fields))
    decreases |keys| - i
  {
    if i == |keys| {
      assert keys[i..] == [];
    } else {
      var n := keys[i];
      SimpleStep(x, fa, sv, dv, n, kv);
      assert keys[i..] == [n] + keys[i + 1..];
      var o := KVStep(x, fa, sv, dv.t, n, kv);
      if o.KVDone? {
        LoopIsFieldwise(x, fa, sv, dv, keys, i + 1, o.kv);
        assert n !in keys[i + 1..];
      }
    }
  }

  /** A struct conversion succeeds iff every shared field converts; the other fields keep their values. */
  ghost predicate Fieldwise(x: Ctx, fa: bool, sv: Value, dv: Value, o: Outcome)
    requires Valid(x.c) && sv.VStruct? && dv.VStruct?
  {
    && (o.Done? <==> forall n :: n in dv.fields && Shared(sv, dv, n) ==> FieldConv(x, fa, sv, dv, n).Done?)
    && (o.Done? ==>
          && o.v.VStruct? && o.v.t == dv.t && o.v.fields.Keys == dv.fields.Keys
          && forall n :: n in dv.fields ==>
               if Shared(sv, dv, n)
               then FieldConv(x, fa, sv, dv, n).Done? && o.v.fields[n] == FieldConv(x, fa, sv, dv, n).v
               else o.v.fields[n] == dv.fields[n])
  }

  lemma {:induction false} WalkedIsFieldwise(x: Ctx, fa: bool, sv: Value, dv: Value, keys: seq<string>, fields: map<string, Value>)
    requires Valid(x.c) && sv.VStruct? && dv.VStruct?
    requires forall n :: n in dv.fields && Shared(sv, dv, n) ==> n in keys
    requires AllDone(x, fa, sv, dv, keys, 0) && Walked(x, fa, sv, dv, keys, 0, dv.fields, fields)
    ensures Fieldwise(x, fa, sv, dv, Done(VStruct(dv.t, fields)))
  {
    ListedDone(x, fa, sv, dv, keys);
    assert keys[0..] == keys;
  }

  lemma {:induction false} ListsShared(u: Universe, from: Value, sv: Value, dv: Value, keys: seq<string>)
    requires sv.VStruct? && dv.VStruct? && (from == sv || from == dv) && HasType(u, from, from.t)
    requires u.desc(from.t).StructT? && keys == FieldNames(u.desc(from.t).fields)
    ensures forall n :: n in dv.fields && Shared(sv, dv, n) ==> n in keys
  {
    forall n | n in dv.fields && Shared(sv, dv, n) ensures n in keys {
      NamesListed(u.desc(from.t).fields, n);
    }
  }

  lemma {:induction false} StructConvIsFieldwise(x: Ctx, sa: bool, sv: Value, dv: Value)
    requires Simple(x) && sv.VStruct? && dv.VStruct?
    requires HasType(x.c.u, sv, sv.t) && HasType(x.c.u, dv, dv.t)
    requires DistinctNames(x.c.u, sv.t) && DistinctNames(x.c.u, dv.t)
    ensures Fieldwise(x, sa, sv, dv, StructConv(x, sa, sv, dv))
  {
    var u := x.c.u;
    var from := if x.fl.sourceToDest then sv else dv;
    assert HasType(u, from, from.t) && u.desc(from.t).StructT?;
    var keys := FieldNames(u.desc(from.t).fields);
    assert Keys(u, from) == Some(keys);
    ListsShared(u, from, sv, dv, keys);
    StructConvLoops(x, sa, sv, dv, keys);
    LoopFieldwise(x, sa, sv, dv, keys);
  }

  ghost function Looped(x: Ctx, fa: bool, sv: Value, dv: Value, keys: seq<string>): KVOutcome
    requires Valid(x.c) && dv.VStruct?
  {
    KVFrom(x, fa, sv, dv.t, keys, 0, KV(dv.fields, "", ""))
  }

  ghost function AsStruct(t: TypeId, o: KVOutcome): Outcome {
    match o
    case KVDone(kv) => Done(VStruct(t, kv.fields))
    case KVFailed => Failed
    case KVPanicked => Panicked
  }

  lemma {:induction false} StructConvLoops(x: Ctx, sa: bool, sv: Value, dv: Value, keys: seq<string>)
    requires Valid(x.c) && sv.VStruct? && dv.VStruct?
    requires Keys(x.c.u, if x.fl.sourceToDest then sv else dv) == Some(keys)
    ensures StructConv(x, sa, sv, dv) == AsStruct(dv.t, Looped(x, sa, sv, dv, keys))
  {
  }

  lemma {:induction false} LoopFieldwise(x: Ctx, sa: bool, sv: Value, dv: Value, keys: seq<string>)
    requires Simple(x) && sv.VStruct? && dv.VStruct? && Distinct(keys)
    requires forall n :: n in dv.fields && Shared(sv, dv, n) ==> n in keys
    ensures Fieldwise(x, sa, sv, dv, AsStruct(dv.t, Looped(x, sa, sv, dv, keys)))
  {
    LoopIsFieldwise(x, sa, sv, dv, keys, 0, KV(dv.fields, "", ""));
    var o := Looped(x, sa, sv, dv, keys);
    if o.KVDone? {
      WalkedIsFieldwise(x, sa, sv, dv, keys, o.kv.fields);
    } else {
      ListedDone(x, sa, sv, dv, keys);
    }
  }

  lemma {:induction false} ListedDone(x: Ctx, fa: bool, sv: Value, dv: Value, keys: seq<string>)
    requires Valid(x.c) && sv.VStruct? && dv.VStruct?
    requires forall n :: n in dv.fields && Shared(sv, dv, n) ==> n in keys
    ensures AllDone(x, fa, sv, dv, keys, 0) <==>
              forall n :: n in dv.fields && Shared(sv, dv, n) ==> FieldConv(x, fa, sv, dv, n).Done?
  {
    if AllDone(x, fa, sv, dv, keys, 0) {
      forall n | n in dv.fields && Shared(sv, dv, n) ensures FieldConv(x, fa, sv, dv, n).Done? {
        var j :| 0 <= j < |keys| && keys[j] == n;
      }
    }
  }

  lemma {:induction false} FieldwiseAgree(x: Ctx, y: Ctx, fa: bool, sv: Value, dv: Value, a: Outcome, b: Outcome)
    requires Valid(x.c) && Valid(y.c) && sv.VStruct? && dv.VStruct?
    requires Fieldwise(x, fa, sv, dv, a) && Fieldwise(y, fa, sv, dv, b)
    requires forall n :: n in dv.fields && Shared(sv, dv, n) ==>
               Agree(FieldConv(x, fa, sv, dv, n), FieldConv(y, fa, sv, dv, n))
    ensures Agree(a, b)
  {
    if a.Done? || b.Done? {
      assert a.Done? && b.Done?;
      assert a.v.fields == b.v.fields;
    }
  }

  // ----- maps into structs -----

  /** Somewhere in the conversion a non-empty string-keyed map goes into a struct. */
  ghost predicate MapMeetsStruct(c: Converter, sv: Value, dv: Value)
    requires Valid(c)
    decreases c.size(sv), c.rank(dv.t), 6
  {
    var p := (sv.t, dv.t);
    assert sv.t in c.defaultingFuncs ==> DefaultingOk(c, sv.t, sv);
    && p !in c.ignoredConversions && p !in c.conversionFuncs && p !in c.generatedConversionFuncs
    && MeetsByDefault(c, Defaulted(c, sv), dv)
  }

  ghost predicate MeetsByDefault(c: Converter, sv: Value, dv: Value)
    requires Valid(c)
    decreases c.size(sv), c.rank(dv.t), 5
  {
    var u := c.u;
    match u.desc(dv.t)
    case StructT(_) =>
      if sv.VStruct? && dv.VStruct? then
        exists n :: n in dv.fields && MeetsInField(c, sv, dv, n)
      else sv.VMap? && IsKV(u, sv) && |sv.m| > 0
    case SliceT(e) => sv.VSlice? && MeetsInSlice(c, sv, e, 0)
    case PtrT(e) =>
      (match sv
       case VPtr(_, target) => assert Child(target, sv); MapMeetsStruct(c, target, u.zero(e))
       case VIface(_, d) => assert Child(d, sv); MapMeetsStruct(c, d, u.zero(e))
       case VSlice(_, _) => MapMeetsStruct(c, sv, u.zero(e))
       case VMap(_, _) => MapMeetsStruct(c, sv, u.zero(e))
       case _ => false)
    case MapT(k, e) => sv.VMap? && MeetsInMap(c, sv, k, e, u.order(sv.m), 0)
    case IfaceT =>
      (match sv
       case VPtr(_, target) => assert Child(target, sv); MapMeetsStruct(c, target, u.zero(target.t))
       case VIface(_, d) => assert Child(d, sv); MapMeetsStruct(c, d, u.zero(d.t))
       case _ => false)
    case BasicT => false
  }

  ghost predicate MeetsInField(c: Converter, sv: Value, dv: Value, n: string)
    requires Valid(c) && sv.VStruct? && dv.VStruct?
    decreases c.size(sv), 0, 3
  {
    if Shared(sv, dv, n) then
      assert sv.fields[n] in sv.fields.Values && Child(sv.fields[n], sv);
      MapMeetsStruct(c, sv.fields[n], dv.fields[n])
    else false
  }

  ghost predicate MeetsInSlice(c: Converter, sv: Value, e: TypeId, i: nat)
    requires Valid(c) && sv.VSlice?
    decreases c.size(sv), 0, 3, |sv.elems| - i
  {
    if i < |sv.elems| then
      assert Child(sv.elems[i], sv);
      MapMeetsStruct(c, sv.elems[i], c.u.zero(e)) || MeetsInSlice(c, sv, e, i + 1)
    else false
  }

  ghost predicate MeetsInMap(c: Converter, sv: Value, kt: TypeId, e: TypeId, keys: seq<Value>, i: nat)
    requires Valid(c) && sv.VMap? && forall k :: k in keys ==> k in sv.m
    decreases c.size(sv), 0, 3, |keys| - i
  {
    if i < |keys| then
      var k := keys[i];
      assert Child(k, sv) && sv.m[k] in sv.m.Values && Child(sv.m[k], sv);
      || MapMeetsStruct(c, k, c.u.zero(kt)) || MapMeetsStruct(c, sv.m[k], c.u.zero(e))
      || MeetsInMap(c, sv, kt, e, keys, i + 1)
    else false
  }

  /** From the source it cannot succeed where a map meets a struct; everywhere else the two directions agree. */
  ghost predicate Settled(meets: bool, fromDest: Outcome, fromSource: Outcome) {
    && (fromSource.Done? ==> !meets)
    && (!meets ==> Agree(fromDest, fromSource))
  }

  // ----- the whole conversion -----

  lemma {:induction false} CallAgrees(
    c: Converter, fl: Flags, f: CustomFn, sv: Value, canSet: bool, dv: Value, stag: string, dtag: string)
    requires DirectionBlind(c, f, fl)
    ensures Agree(CallCustom(FromDest(c, fl), f, canSet, sv, dv, stag, dtag),
                  CallCustom(FromSource(c, fl), f, canSet, sv, dv, stag, dtag))
  {
    assert CustomAgrees(c, f, fl, sv, dv, stag, dtag);
  }

  /** The conversions that do not get to the default one. */
  predicate Shortcut(c: Converter, sa: bool, sv: Value, dv: Value) {
    var p := (sv.t, dv.t);
    || (sv.t in c.defaultingFuncs && !sa)
    || p in c.ignoredConversions || p in c.conversionFuncs || p in c.generatedConversionFuncs
  }

  /** The function that Convert calls for a pair of types. */
  function Registered(c: Converter, p: (TypeId, TypeId)): CustomFn
    requires p in c.conversionFuncs || p in c.generatedConversionFuncs
  {
    if p in c.conversionFuncs then c.conversionFuncs[p] else c.generatedConversionFuncs[p]
  }

  lemma {:induction false} ConvWithoutCall(
    x: Ctx, sa: bool, sv: Value, canSet: bool, dv: Value, stag: string, dtag: string)
    requires Valid(x.c) && ((sv.t in x.c.defaultingFuncs && !sa) || (sv.t, dv.t) in x.c.ignoredConversions)
    ensures Conv(x, sa, sv, canSet, dv, stag, dtag) ==
              if sv.t in x.c.defaultingFuncs && !sa then Panicked else Done(dv)
    ensures (sv.t, dv.t) in x.c.ignoredConversions ==> !MapMeetsStruct(x.c, sv, dv)
  {
  }

  lemma {:induction false} ConvByCall(
    x: Ctx, sa: bool, sv: Value, canSet: bool, dv: Value, stag: string, dtag: string)
    requires Valid(x.c) && Shortcut(x.c, sa, sv, dv)
    requires !(sv.t in x.c.defaultingFuncs && !sa) && (sv.t, dv.t) !in x.c.ignoredConversions
    ensures Conv(x, sa, sv, canSet, dv, stag, dtag) ==
              CallCustom(x, Registered(x.c, (sv.t, dv.t)), canSet, Defaulted(x.c, sv), dv, stag, dtag)
    ensures !MapMeetsStruct(x.c, sv, dv)
  {
  }

  lemma {:induction false} RegisteredIsBlind(c: Converter, fl: Flags, p: (TypeId, TypeId))
    requires Comparable(c, fl) && (p in c.conversionFuncs || p in c.generatedConversionFuncs)
    ensures DirectionBlind(c, Registered(c, p), fl)
  {
  }

  lemma {:induction false} CallSettled(
    c: Converter, fl: Flags, sa: bool, sv: Value, canSet: bool, dv: Value, stag: string, dtag: string)
    requires Valid(c) && Shortcut(c, sa, sv, dv)
    requires !(sv.t in c.defaultingFuncs && !sa) && (sv.t, dv.t) !in c.ignoredConversions
    requires DirectionBlind(c, Registered(c, (sv.t, dv.t)), fl)
    ensures Settled(MapMeetsStruct(c, sv, dv),
                    Conv(FromDest(c, fl), sa, sv, canSet, dv, stag, dtag),
                    Conv(FromSource(c, fl), sa, sv, canSet, dv, stag, dtag))
  {
    ConvByCall(FromDest(c, fl), sa, sv, canSet, dv, stag, dtag);
    ConvByCall(FromSource(c, fl), sa, sv, canSet, dv, stag, dtag);
    CallAgrees(c, fl, Registered(c, (sv.t, dv.t)), Defaulted(c, sv), canSet, dv, stag, dtag);
  }

  lemma {:induction false} ShortcutSettled(
    c: Converter, fl: Flags, sa: bool, sv: Value, canSet: bool, dv: Value, stag: string, dtag: string)
    requires Comparable(c, fl) && Shortcut(c, sa, sv, dv)
    ensures Settled(MapMeetsStruct(c, sv, dv),
                    Conv(FromDest(c, fl), sa, sv, canSet, dv, stag, dtag),
                    Conv(FromSource(c, fl), sa, sv, canSet, dv, stag, dtag))
  {
    if (sv.t in c.defaultingFuncs && !sa) || (sv.t, dv.t) in c.ignoredConversions {
      ConvWithoutCall(FromDest(c, fl), sa, sv, canSet, dv, stag, dtag);
      ConvWithoutCall(FromSource(c, fl), sa, sv, canSet, dv, stag, dtag);
    } else {
      RegisteredIsBlind(c, fl, (sv.t, dv.t));
      CallSettled(c, fl, sa, sv, canSet, dv, stag, dtag);
    }
  }

  lemma {:induction false} ConvByDefault(
    x: Ctx, sa: bool, sv: Value, canSet: bool, dv: Value, stag: string, dtag: string)
    requires Valid(x.c) && !Shortcut(x.c, sa, sv, dv)
    ensures Conv(x, sa, sv, canSet, dv, stag, dtag) == DefConv(x, sa, Defaulted(x.c, sv), canSet, dv)
    ensures MapMeetsStruct(x.c, sv, dv) == MeetsByDefault(x.c, Defaulted(x.c, sv), dv)
  {
  }

  lemma {:induction false} ConvSettled(
    c: Converter, fl: Flags, sa: bool, sv: Value, canSet: bool, dv: Value, stag: string, dtag: string)
    requires Comparable(c, fl) && HasType(c.u, sv, sv.t) && HasType(c.u, dv, dv.t)
    ensures Settled(MapMeetsStruct(c, sv, dv),
                    Conv(FromDest(c, fl), sa, sv, canSet, dv, stag, dtag),
                    Conv(FromSource(c, fl), sa, sv, canSet, dv, stag, dtag))
    decreases c.size(sv), c.rank(dv.t), 6
  {
    if Shortcut(c, sa, sv, dv) {
      ShortcutSettled(c, fl, sa, sv, canSet, dv, stag, dtag);
    } else {
      DefaultTypes(c, fl, sv);
      ConvByDefault(FromDest(c, fl), sa, sv, canSet, dv, stag, dtag);
      ConvByDefault(FromSource(c, fl), sa, sv, canSet, dv, stag, dtag);
      DefConvSettled(c, fl, sa, Defaulted(c, sv), canSet, dv);
    }
  }

  /** Defaulting keeps the type and does not enlarge the value. */
  lemma {:induction false} DefaultTypes(c: Converter, fl: Flags, sv: Value)
    requires Comparable(c, fl) && HasType(c.u, sv, sv.t)
    ensures var d := Defaulted(c, sv); d.t == sv.t && HasType(c.u, d, d.t) && c.size(d) <= c.size(sv)
  {
    if sv.t in c.defaultingFuncs {
      assert DefaultingOk(c, sv.t, sv) && DefaultTyped(c, sv.t, sv);
    }
  }

  lemma {:induction false} DefConvSettled(c: Converter, fl: Flags, sa: bool, sv: Value, canSet: bool, dv: Value)
    requires Comparable(c, fl) && HasType(c.u, sv, sv.t) && HasType(c.u, dv, dv.t)
    ensures Settled(MeetsByDefault(c, sv, dv),
                    DefConv(FromDest(c, fl), sa, sv, canSet, dv), DefConv(FromSource(c, fl), sa, sv, canSet, dv))
    decreases c.size(sv), c.rank(dv.t), 5
  {
    if sv.VBasic? {
      BasicMeetsNothing(c, sv, dv);
    }
    KindConvSettled(c, fl, sa, sv, dv);
  }

  lemma {:induction false} BasicMeetsNothing(c: Converter, sv: Value, dv: Value)
    requires Valid(c) && sv.VBasic?
    ensures !MeetsByDefault(c, sv, dv)
  {
  }

  lemma {:induction false} KindConvSettled(c: Converter, fl: Flags, sa: bool, sv: Value, dv: Value)
    requires Comparable(c, fl) && HasType(c.u, sv, sv.t) && HasType(c.u, dv, dv.t)
    ensures Settled(MeetsByDefault(c, sv, dv), KindConv(FromDest(c, fl), sa, sv, dv), KindConv(FromSource(c, fl), sa, sv, dv))
    decreases c.size(sv), c.rank(dv.t), 4
  {
    var u := c.u;
    match u.desc(dv.t)
    case StructT(_) =>
      if sv.VStruct? { StructSettled(c, fl, sa, sv, dv); } else { MapIntoStruct(c, fl, sa, sv, dv); }
    case SliceT(e) => if sv.VSlice? { SliceSettled(c, fl, sv, dv.t, e, 0, []); }
    case PtrT(e) => PtrSettled(c, fl, sa, sv, dv);
    case MapT(k, e) => if sv.VMap? { MapSettled(c, fl, sv, dv.t, k, e, u.order(sv.m), 0, map[]); }
    case IfaceT => IfaceSettled(c, fl, sa, sv, dv);
    case BasicT =>
  }

  lemma {:induction false} PtrSettled(c: Converter, fl: Flags, sa: bool, sv: Value, dv: Value)
    requires Comparable(c, fl) && HasType(c.u, sv, sv.t) && HasType(c.u, dv, dv.t) && c.u.desc(dv.t).PtrT?
    ensures Settled(MeetsByDefault(c, sv, dv), KindConv(FromDest(c, fl), sa, sv, dv), KindConv(FromSource(c, fl), sa, sv, dv))
    decreases c.size(sv), c.rank(dv.t), 3
  {
    var z := c.u.zero(c.u.desc(dv.t).elem);
    if sv.VPtr? {
      assert Child(sv.target, sv);
      ConvSettled(c, fl, true, sv.target, true, z, "", "");
    } else if sv.VIface? {
      assert Child(sv.dyn, sv);
      ConvSettled(c, fl, false, sv.dyn, true, z, "", "");
    } else if sv.VSlice? || sv.VMap? {
      ConvSettled(c, fl, sa, sv, true, z, "", "");
    }
  }

  lemma {:induction false} IfaceSettled(c: Converter, fl: Flags, sa: bool, sv: Value, dv: Value)
    requires Comparable(c, fl) && HasType(c.u, sv, sv.t) && HasType(c.u, dv, dv.t) && c.u.desc(dv.t).IfaceT?
    ensures Settled(MeetsByDefault(c, sv, dv), KindConv(FromDest(c, fl), sa, sv, dv), KindConv(FromSource(c, fl), sa, sv, dv))
    decreases c.size(sv), c.rank(dv.t), 3
  {
    if sv.VPtr? {
      assert Child(sv.target, sv);
      ConvSettled(c, fl, true, sv.target, true, c.u.zero(sv.target.t), "", "");
    } else if sv.VIface? {
      assert Child(sv.dyn, sv);
      ConvSettled(c, fl, false, sv.dyn, true, c.u.zero(sv.dyn.t), "", "");
    }
  }

  lemma {:induction false} SliceSettled(c: Converter, fl: Flags, sv: Value, dt: TypeId, e: TypeId, i: nat, outs: seq<Value>)
    requires Comparable(c, fl) && HasType(c.u, sv, sv.t) && sv.VSlice? && i <= |sv.elems|
    ensures Settled(MeetsInSlice(c, sv, e, i),
                    SliceFrom(FromDest(c, fl), sv, dt, e, i, outs), SliceFrom(FromSource(c, fl), sv, dt, e, i, outs))
    decreases c.size(sv), 0, 3, |sv.elems| - i
  {
    if i < |sv.elems| {
      var v, z := sv.elems[i], c.u.zero(e);
      assert Child(v, sv);
      ConvSettled(c, fl, true, v, true, z, "", "");
      var o := Conv(FromSource(c, fl), true, v, true, z, "", "");
      if o.Done? {
        SliceSettled(c, fl, sv, dt, e, i + 1, outs + [o.v]);
      }
    }
  }

  lemma {:induction false} MapSettled(
    c: Converter, fl: Flags, sv: Value, dt: TypeId, kt: TypeId, e: TypeId, keys: seq<Value>, i: nat, out: map<Value, Value>)
    requires Comparable(c, fl) && HasType(c.u, sv, sv.t) && sv.VMap? && i <= |keys| && forall k :: k in keys ==> k in sv.m
    ensures Settled(MeetsInMap(c, sv, kt, e, keys, i),
                    MapFrom(FromDest(c, fl), sv, dt, kt, e, keys, i, out),
                    MapFrom(FromSource(c, fl), sv, dt, kt, e, keys, i, out))
    decreases c.size(sv), 0, 3, |keys| - i
  {
    if i < |keys| {
      var k, zk, ze := keys[i], c.u.zero(kt), c.u.zero(e);
      assert k in sv.m && Child(k, sv);
      assert sv.m[k] in sv.m.Values && Child(sv.m[k], sv);
      ConvSettled(c, fl, false, k, true, zk, "", "");
      ConvSettled(c, fl, false, sv.m[k], true, ze, "", "");
      var dk, o := Conv(FromSource(c, fl), false, k, true, zk, "", ""), Conv(FromSource(c, fl), false, sv.m[k], true, ze, "", "");
      if dk.Done? && o.Done? {
        MapSettled(c, fl, sv, dt, kt, e, keys, i + 1, out[dk.v := o.v]);
      }
    }
  }

  lemma {:induction false} StructSettled(c: Converter, fl: Flags, sa: bool, sv: Value, dv: Value)
    requires Comparable(c, fl) && HasType(c.u, sv, sv.t) && HasType(c.u, dv, dv.t)
    requires c.u.desc(dv.t).StructT? && sv.VStruct?
    ensures Settled(MeetsByDefault(c, sv, dv),
                    StructConv(FromDest(c, fl), sa, sv, dv), StructConv(FromSource(c, fl), sa, sv, dv))
    decreases c.size(sv), 0, 3
  {
    var x, y := FromDest(c, fl), FromSource(c, fl);
    assert DistinctNames(c.u, sv.t) && DistinctNames(c.u, dv.t);
    StructConvIsFieldwise(x, sa, sv, dv);
    StructConvIsFieldwise(y, sa, sv, dv);
    forall n | n in dv.fields && Shared(sv, dv, n)
      ensures Settled(MeetsInField(c, sv, dv, n), FieldConv(x, sa, sv, dv, n), FieldConv(y, sa, sv, dv, n))
    {
      FieldSettled(c, fl, sa, sv, dv, n);
    }
    FieldsSettled(c, x, y, sa, sv, dv, StructConv(x, sa, sv, dv), StructConv(y, sa, sv, dv));
  }

  lemma {:induction false} FieldSettled(c: Converter, fl: Flags, sa: bool, sv: Value, dv: Value, n: string)
    requires Comparable(c, fl) && HasType(c.u, sv, sv.t) && HasType(c.u, dv, dv.t)
    requires sv.VStruct? && dv.VStruct? && Shared(sv, dv, n)
    ensures Settled(MeetsInField(c, sv, dv, n),
                    FieldConv(FromDest(c, fl), sa, sv, dv, n), FieldConv(FromSource(c, fl), sa, sv, dv, n))
    decreases c.size(sv), 0, 2
  {
    assert sv.fields[n] in sv.fields.Values && Child(sv.fields[n], sv);
    FieldTyped(c.u, sv, n);
    FieldTyped(c.u, dv, n);
    ConvSettled(c, fl, sa, sv.fields[n], c.u.exported(n), dv.fields[n], TagOf(c.u, sv.t, n), TagOf(c.u, dv.t, n));
  }

  lemma {:induction false} FieldsSettled(
    c: Converter, x: Ctx, y: Ctx, fa: bool, sv: Value, dv: Value, a: Outcome, b: Outcome)
    requires Valid(c) && x.c == c && y.c == c && sv.VStruct? && dv.VStruct?
    requires Fieldwise(x, fa, sv, dv, a) && Fieldwise(y, fa, sv, dv, b)
    requires forall n :: n in dv.fields && Shared(sv, dv, n) ==>
               Settled(MeetsInField(c, sv, dv, n), FieldConv(x, fa, sv, dv, n), FieldConv(y, fa, sv, dv, n))
    ensures Settled(exists n :: n in dv.fields && MeetsInField(c, sv, dv, n), a, b)
  {
    if b.Done? {
      forall n | n in dv.fields ensures !MeetsInField(c, sv, dv, n) {
        if Shared(sv, dv, n) {
          assert FieldConv(y, fa, sv, dv, n).Done?;
        }
      }
    }
    if forall n :: n in dv.fields ==> !MeetsInField(c, sv, dv, n) {
      FieldwiseAgree(x, y, fa, sv, dv, a, b);
    }
  }

  lemma {:induction false} FieldTyped(u: Universe, v: Value, n: string)
    requires v.VStruct? && HasType(u, v, v.t) && n in v.fields
    ensures HasType(u, v.fields[n], v.fields[n].t)
  {
    var fs := u.desc(v.t).fields;
    assert Named(fs, n);
    var i :| 0 <= i < |fs| && fs[i].name == n;
    assert HasType(u, v.fields[fs[i].name], fs[i].t);
  }

  // ----- a source that is not a struct, into a struct -----

  /** A source without fields or entries leaves the destination's fields alone. */
  lemma {:induction false} EmptySourceLoop(x: Ctx, fa: bool, sv: Value, dt: TypeId, keys: seq<string>, i: nat, kv: KV)
    requires Simple(x) && i <= |keys| && forall n :: KVValue(x.c.u, sv, n).None?
    ensures KVFrom(x, fa, sv, dt, keys, i, kv) == KVDone(kv)
    decreases |keys| - i
  {
    if i < |keys| {
      assert CheckField(x, fa, sv, keys[i], kv) == Checked(false, KVDone(kv));
      EmptySourceLoop(x, fa, sv, dt, keys, i + 1, kv);
    }
  }

  lemma {:induction false} EmptyIntoStruct(x: Ctx, sa: bool, sv: Value, dv: Value)
    requires Simple(x) && dv.VStruct? && x.c.u.desc(dv.t).StructT?
    requires IsKV(x.c.u, sv) && (sv.VNil? || (sv.VMap? && |sv.m| == 0))
    ensures StructConv(x, sa, sv, dv) == Done(dv)
  {
    var from := if x.fl.sourceToDest then sv else dv;
    assert Keys(x.c.u, from).Some?;
    EmptySourceLoop(x, false, sv, dv.t, Keys(x.c.u, from).value, 0, KV(dv.fields, "", ""));
  }

  /** Nothing but a struct or a string-keyed map goes into a struct; a non-empty map panics from the source. */
  lemma {:induction false} MapIntoStruct(c: Converter, fl: Flags, sa: bool, sv: Value, dv: Value)
    requires Comparable(c, fl) && HasType(c.u, dv, dv.t) && c.u.desc(dv.t).StructT? && !sv.VStruct?
    ensures Settled(MeetsByDefault(c, sv, dv), KindConv(FromDest(c, fl), sa, sv, dv), KindConv(FromSource(c, fl), sa, sv, dv))
  {
    var x, y := FromDest(c, fl), FromSource(c, fl);
    assert KindConv(x, sa, sv, dv) == StructConv(x, sa, sv, dv) && KindConv(y, sa, sv, dv) == StructConv(y, sa, sv, dv);
    if !IsKV(c.u, sv) {
      assert !StructConv(x, sa, sv, dv).Done? && !StructConv(y, sa, sv, dv).Done?;
    } else if sv.VNil? || |sv.m| == 0 {
      EmptyIntoStruct(x, sa, sv, dv);
      EmptyIntoStruct(y, sa, sv, dv);
    } else {
      assert Keys(c.u, sv).None? && StructConv(y, sa, sv, dv) == Panicked;
      assert MeetsByDefault(c, sv, dv);
    }
  }

  // ----- the results -----

  /** Where no non-empty map goes into a struct, the two directions agree. */
  lemma {:induction false} ConvAgrees(
    c: Converter, fl: Flags, sa: bool, sv: Value, canSet: bool, dv: Value, stag: string, dtag: string)
    requires Comparable(c, fl) && HasType(c.u, sv, sv.t) && HasType(c.u, dv, dv.t)
    requires !MapMeetsStruct(c, sv, dv)
    ensures Agree(Conv(FromDest(c, fl), sa, sv, canSet, dv, stag, dtag),
                  Conv(FromSource(c, fl), sa, sv, canSet, dv, stag, dtag))
  {
    ConvSettled(c, fl, sa, sv, canSet, dv, stag, dtag);
  }

  /**
   How the two directions compare, exactly: from the source the conversion succeeds iff from the destination it
   does and no non-empty map goes into a struct; then the results are equal.
   */
  lemma {:induction false} DirectionsAgreeIff(
    c: Converter, fl: Flags, sa: bool, sv: Value, canSet: bool, dv: Value, stag: string, dtag: string)
    requires Comparable(c, fl) && HasType(c.u, sv, sv.t) && HasType(c.u, dv, dv.t)
    ensures var fromDest, fromSource := Conv(FromDest(c, fl), sa, sv, canSet, dv, stag, dtag),
                                        Conv(FromSource(c, fl), sa, sv, canSet, dv, stag, dtag);
            && (fromSource.Done? <==> fromDest.Done? && !MapMeetsStruct(c, sv, dv))
            && (fromSource.Done? ==> fromSource == fromDest)
  {
    ConvSettled(c, fl, sa, sv, canSet, dv, stag, dtag);
  }
}
