/**
 The conversion loops of pkg/conversion/converter.go with the two scope stacks they push, edit and pop.
 Each method computes what ConverterSpec says and leaves the stacks as it found them; convertKV,
 checkField and the loops of defaultConvert may only relabel the top frames. The stacks are read
 through Top, so no conversion looks at the top of an empty stack.
 */
module Converter {
  import opened Wrappers
  import opened ConverterSpec

  /** The key of a stack frame, as shown in error messages. */
  datatype Label = NoLabel | Index(i: nat) | Key(k: Value) | FieldName(s: string)

  datatype Frame = Frame(tag: string, value: Option<Value>, key: Label)

  /** The same stack, but for the label and tag of the top frame. */
  ghost predicate OnlyTop(a: seq<Frame>, b: seq<Frame>) {
    && |a| == |b| > 0
    && a[..|a| - 1] == b[..|b| - 1]
    && a[|a| - 1].value == b[|b| - 1].value
  }

  class Scope {
    const x: Ctx
    var srcStack: seq<Frame>
    var destStack: seq<Frame>

    constructor (x: Ctx)
      ensures this.x == x && srcStack == [] && destStack == []
    {
      this.x := x;
      srcStack, destStack := [], [];
    }

    ghost predicate Ready()
      reads this
    {
      Valid(x.c) && |srcStack| > 0 && |destStack| > 0
    }

    function SrcTag(): string
      requires |srcStack| > 0
      reads this
    {
      srcStack[|srcStack| - 1].tag
    }

    function DestTag(): string
      requires |destStack| > 0
      reads this
    {
      destStack[|destStack| - 1].tag
    }

    method Push(src: Frame, dest: Frame)
      modifies this
      ensures srcStack == old(srcStack) + [src] && destStack == old(destStack) + [dest]
    {
      srcStack, destStack := srcStack + [src], destStack + [dest];
    }

    method Pop()
      requires |srcStack| > 0 && |destStack| > 0
      modifies this
      ensures srcStack == old(srcStack)[..|old(srcStack)| - 1]
      ensures destStack == old(destStack)[..|old(destStack)| - 1]
    {
      srcStack, destStack := srcStack[..|srcStack| - 1], destStack[..|destStack| - 1];
    }

    /** setIndices, setKeys and the assignments to top().key. */
    method Relabel(src: Label, dest: Label)
      requires |srcStack| > 0 && |destStack| > 0
      modifies this
      ensures OnlyTop(old(srcStack), srcStack) && OnlyTop(old(destStack), destStack)
      ensures SrcTag() == old(SrcTag()) && DestTag() == old(DestTag())
      ensures srcStack[|srcStack| - 1].key == src && destStack[|destStack| - 1].key == dest
    {
      var n, m := |srcStack| - 1, |destStack| - 1;
      srcStack := srcStack[n := srcStack[n].(key := src)];
      destStack := destStack[m := destStack[m].(key := dest)];
    }

    method Retag(stag: string, dtag: string)
      requires |srcStack| > 0 && |destStack| > 0
      modifies this
      ensures OnlyTop(old(srcStack), srcStack) && OnlyTop(old(destStack), destStack)
      ensures SrcTag() == stag && DestTag() == dtag
    {
      var n, m := |srcStack| - 1, |destStack| - 1;
      srcStack := srcStack[n := srcStack[n].(tag := stag)];
      destStack := destStack[m := destStack[m].(tag := dtag)];
    }
  }

  /**
   What the registrations decide by themselves: defaults need an addressable source, an ignored pair leaves the
   destination, and otherwise the function registered for the pair, by hand before generated, is what gives
   the result, from the defaulted source, the destination, the flags and the two tags.
   */
  ghost predicate AsRegistered(
    c: ConverterSpec.Converter, fl: Flags, sa: bool, sv: Value, canSet: bool, dv: Value, stag: string, dtag: string, o: Outcome)
  {
    var pair := (sv.t, dv.t);
    var v := if sv.t in c.defaultingFuncs then c.defaultingFuncs[sv.t](sv) else sv;
    if sv.t in c.defaultingFuncs && !sa then o == Panicked
    else if pair in c.ignoredConversions then o == Done(dv)
    else if pair in c.conversionFuncs then o == if canSet then c.conversionFuncs[pair](v, dv, fl, stag, dtag) else Panicked
    else if pair in c.generatedConversionFuncs then
      o == if canSet then c.generatedConversionFuncs[pair](v, dv, fl, stag, dtag) else Panicked
    else true
  }

  /** doConversion with convert: both arguments must be non-nil pointers. */
  method DoConversion(c: ConverterSpec.Converter, fl: Flags, src: Value, dest: Value) returns (o: Outcome)
    requires Valid(c)
    ensures !(src.VPtr? && dest.VPtr?) ==> o == Failed
    ensures src.VPtr? && dest.VPtr? ==> o == Conv(Ctx(c, fl), true, src.target, true, dest.target, "", "")
    ensures src.VPtr? && dest.VPtr? ==> AsRegistered(c, fl, true, src.target, true, dest.target, "", "", o)
  {
    if !dest.VPtr? || !src.VPtr? {
      return Failed;
    }
    var scope := new Scope(Ctx(c, fl));
    scope.Push(Frame("", None, NoLabel), Frame("", None, NoLabel));
    o := Convert(scope, true, src.target, true, dest.target);
  }

  method Convert(scope: Scope, sa: bool, sv: Value, canSet: bool, dv: Value) returns (o: Outcome)
    requires scope.Ready()
    modifies scope
    ensures scope.srcStack == old(scope.srcStack) && scope.destStack == old(scope.destStack)
    ensures o == Conv(scope.x, sa, sv, canSet, dv, old(scope.SrcTag()), old(scope.DestTag()))
    ensures AsRegistered(scope.x.c, scope.x.fl, sa, sv, canSet, dv, old(scope.SrcTag()), old(scope.DestTag()), o)
    decreases scope.x.c.size(sv), scope.x.c.rank(dv.t), 6
  {
    var c := scope.x.c;
    var v := sv;
    if sv.t in c.defaultingFuncs {
      if !sa {
        return Panicked;
      }
      assert DefaultingOk(c, sv.t, sv);
      v := c.defaultingFuncs[sv.t](sv);
    }
    var pair := (sv.t, dv.t);
    if pair in c.ignoredConversions {
      return Done(dv);
    }
    if pair in c.conversionFuncs {
      return CallCustom(scope.x, c.conversionFuncs[pair], canSet, v, dv, scope.SrcTag(), scope.DestTag());
    }
    if pair in c.generatedConversionFuncs {
      return CallCustom(scope.x, c.generatedConversionFuncs[pair], canSet, v, dv, scope.SrcTag(), scope.DestTag());
    }
    o := DefaultConvert(scope, sa, v, canSet, dv);
  }

  method DefaultConvert(scope: Scope, sa: bool, sv: Value, canSet: bool, dv: Value) returns (o: Outcome)
    requires scope.Ready()
    modifies scope
    ensures scope.srcStack == old(scope.srcStack) && scope.destStack == old(scope.destStack)
    ensures o == DefConv(scope.x, sa, sv, canSet, dv)
    decreases scope.x.c.size(sv), scope.x.c.rank(dv.t), 5
  {
    var u := scope.x.c.u;
    if !canSet {
      return Failed;
    }
    if !scope.x.fl.allowNames && u.name(dv.t) != u.name(sv.t) {
      return Failed;
    }
    if sv.VBasic? {
      if u.assignable(sv.t, dv.t) {
        return Done(u.assign(sv, dv.t));
      }
      if u.convertible(sv.t, dv.t) {
        return Done(u.convert(sv, dv.t));
      }
    }
    o := ConvertInFrame(scope, sa, sv, dv);
  }

  /** The switch over kinds inside a frame of its own. */
  method ConvertInFrame(scope: Scope, sa: bool, sv: Value, dv: Value) returns (o: Outcome)
    requires scope.Ready()
    modifies scope
    ensures scope.srcStack == old(scope.srcStack) && scope.destStack == old(scope.destStack)
    ensures o == KindConv(scope.x, sa, sv, dv)
    decreases scope.x.c.size(sv), scope.x.c.rank(dv.t), 4
  {
    scope.Push(Frame("", Some(sv), NoLabel), Frame("", Some(dv), NoLabel));
    o := ConvertKind(scope, sa, sv, dv);
    scope.Pop();
  }

  method ConvertKind(scope: Scope, sa: bool, sv: Value, dv: Value) returns (o: Outcome)
    requires scope.Ready() && scope.SrcTag() == "" && scope.DestTag() == ""
    modifies scope
    ensures OnlyTop(old(scope.srcStack), scope.srcStack) && OnlyTop(old(scope.destStack), scope.destStack)
    ensures o == KindConv(scope.x, sa, sv, dv)
    decreases scope.x.c.size(sv), scope.x.c.rank(dv.t), 4, 0
  {
    match scope.x.c.u.desc(dv.t)
    case StructT(_) =>
      o := ConvertKV(scope, sa, sv, dv);
    case SliceT(_) =>
      o := ConvertToSlice(scope, sa, sv, dv);
    case PtrT(_) =>
      o := ConvertPtr(scope, sa, sv, dv);
    case MapT(_, _) =>
      o := ConvertToMap(scope, sa, sv, dv);
    case IfaceT =>
      o := ConvertIface(scope, sa, sv, dv);
    case BasicT =>
      o := Failed;
  }

  method ConvertPtr(scope: Scope, sa: bool, sv: Value, dv: Value) returns (o: Outcome)
    requires scope.Ready() && scope.SrcTag() == "" && scope.DestTag() == "" && scope.x.c.u.desc(dv.t).PtrT?
    modifies scope
    ensures scope.srcStack == old(scope.srcStack) && scope.destStack == old(scope.destStack)
    ensures o == KindConv(scope.x, sa, sv, dv)
    decreases scope.x.c.size(sv), scope.x.c.rank(dv.t), 3
  {
    var u, dt := scope.x.c.u, dv.t;
    var z := u.zero(u.desc(dt).elem);
    if sv.VNil? {
      return Done(VNil(dt));
    }
    if sv.VBasic? || sv.VStruct? {
      return Panicked;
    }
    if sv.VPtr? {
      assert Child(sv.target, sv);
      o := Convert(scope, true, sv.target, true, z);
    } else if sv.VIface? {
      assert Child(sv.dyn, sv);
      o := Convert(scope, false, sv.dyn, true, z);
    } else {
      o := Convert(scope, sa, sv, true, z);
    }
    o := Boxed(dt, o);
  }

  method ConvertIface(scope: Scope, sa: bool, sv: Value, dv: Value) returns (o: Outcome)
    requires scope.Ready() && scope.SrcTag() == "" && scope.DestTag() == "" && scope.x.c.u.desc(dv.t).IfaceT?
    modifies scope
    ensures scope.srcStack == old(scope.srcStack) && scope.destStack == old(scope.destStack)
    ensures o == KindConv(scope.x, sa, sv, dv)
    decreases scope.x.c.size(sv), scope.x.c.rank(dv.t), 3
  {
    var u, dt := scope.x.c.u, dv.t;
    if sv.VNil? {
      o := Done(VNil(dt));
    } else if sv.VPtr? {
      assert Child(sv.target, sv);
      o := Convert(scope, true, sv.target, true, u.zero(sv.target.t));
      o := Stored(u, dt, o);
    } else if sv.VIface? {
      assert Child(sv.dyn, sv);
      o := Convert(scope, false, sv.dyn, true, u.zero(sv.dyn.t));
      o := Stored(u, dt, o);
    } else {
      o := Panicked;
    }
  }

  method ConvertToSlice(scope: Scope, sa: bool, sv: Value, dv: Value) returns (o: Outcome)
    requires scope.Ready() && scope.SrcTag() == "" && scope.DestTag() == "" && scope.x.c.u.desc(dv.t).SliceT?
    modifies scope
    ensures OnlyTop(old(scope.srcStack), scope.srcStack) && OnlyTop(old(scope.destStack), scope.destStack)
    ensures o == KindConv(scope.x, sa, sv, dv)
    decreases scope.x.c.size(sv), scope.x.c.rank(dv.t), 3
  {
    var desc := scope.x.c.u.desc(dv.t);
    if sv.VNil? {
      o := Done(VNil(dv.t));
    } else if sv.VSlice? {
      o := ConvertSlice(scope, sv, dv.t, desc.elem);
    } else {
      o := Panicked;
    }
  }

  method ConvertToMap(scope: Scope, sa: bool, sv: Value, dv: Value) returns (o: Outcome)
    requires scope.Ready() && scope.SrcTag() == "" && scope.DestTag() == "" && scope.x.c.u.desc(dv.t).MapT?
    modifies scope
    ensures OnlyTop(old(scope.srcStack), scope.srcStack) && OnlyTop(old(scope.destStack), scope.destStack)
    ensures o == KindConv(scope.x, sa, sv, dv)
    decreases scope.x.c.size(sv), scope.x.c.rank(dv.t), 3
  {
    var desc := scope.x.c.u.desc(dv.t);
    if sv.VNil? {
      o := Done(VNil(dv.t));
    } else if sv.VMap? {
      o := ConvertMap(scope, sv, dv.t, desc.key, desc.elem);
    } else {
      o := Panicked;
    }
  }

  method ConvertSlice(scope: Scope, sv: Value, dt: TypeId, e: TypeId) returns (o: Outcome)
    requires scope.Ready() && scope.SrcTag() == "" && scope.DestTag() == "" && sv.VSlice?
    modifies scope
    ensures OnlyTop(old(scope.srcStack), scope.srcStack) && OnlyTop(old(scope.destStack), scope.destStack)
    ensures o == SliceFrom(scope.x, sv, dt, e, 0, [])
    decreases scope.x.c.size(sv), 0, 3, |sv.elems|
  {
    var x := scope.x;
    var outs: seq<Value> := [];
    for i := 0 to |sv.elems|
      invariant scope.Ready() && scope.SrcTag() == "" && scope.DestTag() == ""
      invariant OnlyTop(old(scope.srcStack), scope.srcStack) && OnlyTop(old(scope.destStack), scope.destStack)
      invariant SliceFrom(x, sv, dt, e, i, outs) == SliceFrom(x, sv, dt, e, 0, [])
    {
      scope.Relabel(Index(i), Index(i));
      assert Child(sv.elems[i], sv);
      o := Convert(scope, true, sv.elems[i], true, x.c.u.zero(e));
      if !o.Done? {
        return;
      }
      outs := outs + [o.v];
    }
    o := Done(VSlice(dt, outs));
  }

  method ConvertMap(scope: Scope, sv: Value, dt: TypeId, kt: TypeId, e: TypeId) returns (o: Outcome)
    requires scope.Ready() && scope.SrcTag() == "" && scope.DestTag() == "" && sv.VMap?
    modifies scope
    ensures OnlyTop(old(scope.srcStack), scope.srcStack) && OnlyTop(old(scope.destStack), scope.destStack)
    ensures o == MapFrom(scope.x, sv, dt, kt, e, scope.x.c.u.order(sv.m), 0, map[])
    decreases scope.x.c.size(sv), 0, 3, |scope.x.c.u.order(sv.m)|
  {
    var x := scope.x;
    var keys := x.c.u.order(sv.m);
    var out: map<Value, Value> := map[];
    for i := 0 to |keys|
      invariant scope.Ready() && scope.SrcTag() == "" && scope.DestTag() == ""
      invariant OnlyTop(old(scope.srcStack), scope.srcStack) && OnlyTop(old(scope.destStack), scope.destStack)
      invariant MapFrom(x, sv, dt, kt, e, keys, i, out) == MapFrom(x, sv, dt, kt, e, keys, 0, map[])
    {
      var k := keys[i];
      assert Child(k, sv);
      var dk := Convert(scope, false, k, true, x.c.u.zero(kt));
      if !dk.Done? {
        return dk;
      }
      scope.Relabel(Key(k), Key(dk.v));
      assert sv.m[k] in sv.m.Values;
      assert Child(sv.m[k], sv);
      o := Convert(scope, false, sv.m[k], true, x.c.u.zero(e));
      if !o.Done? {
        return;
      }
      out := out[dk.v := o.v];
    }
    o := Done(VMap(dt, out));
  }

  method ConvertKV(scope: Scope, sa: bool, sv: Value, dv: Value) returns (o: Outcome)
    requires scope.Ready() && scope.SrcTag() == "" && scope.DestTag() == ""
    modifies scope
    ensures OnlyTop(old(scope.srcStack), scope.srcStack) && OnlyTop(old(scope.destStack), scope.destStack)
    ensures o == StructConv(scope.x, sa, sv, dv)
    decreases scope.x.c.size(sv), 0, 3, 0
  {
    var x := scope.x;
    var u := x.c.u;
    if !dv.VStruct? {
      return Panicked;
    }
    if !IsKV(u, sv) {
      return Failed;
    }
    var keys := Keys(u, if x.fl.sourceToDest then sv else dv);
    if keys.None? {
      return Panicked;
    }
    var fields, r := ConvertKeys(scope, sa && sv.VStruct?, sv, dv.t, keys.value, dv.fields);
    o := if r.Done? then Done(VStruct(dv.t, fields)) else r;
  }

  /** The loop of convertKV; r only reports success, failure or panic. */
  method ConvertKeys(scope: Scope, fa: bool, sv: Value, dt: TypeId, keys: seq<string>, fields: map<string, Value>)
    returns (fields': map<string, Value>, r: Outcome)
    requires scope.Ready()
    modifies scope
    ensures OnlyTop(old(scope.srcStack), scope.srcStack) && OnlyTop(old(scope.destStack), scope.destStack)
    ensures KVFrom(scope.x, fa, sv, dt, keys, 0, KV(fields, old(scope.SrcTag()), old(scope.DestTag()))) ==
              Report(r, fields', scope.SrcTag(), scope.DestTag())
    decreases scope.x.c.size(sv), 0, 2
  {
    var x := scope.x;
    fields' := fields;
    for i := 0 to |keys|
      invariant scope.Ready()
      invariant OnlyTop(old(scope.srcStack), scope.srcStack) && OnlyTop(old(scope.destStack), scope.destStack)
      invariant KVFrom(x, fa, sv, dt, keys, i, KV(fields', scope.SrcTag(), scope.DestTag())) ==
                KVFrom(x, fa, sv, dt, keys, 0, KV(fields, old(scope.SrcTag()), old(scope.DestTag())))
    {
      fields', r := ConvertKey(scope, fa, sv, dt, keys[i], fields');
      if !r.Done? {
        return;
      }
    }
    r := Done(sv);
  }

  /** One round of that loop. */
  method ConvertKey(scope: Scope, fa: bool, sv: Value, dt: TypeId, key: string, fields: map<string, Value>)
    returns (fields': map<string, Value>, r: Outcome)
    requires scope.Ready()
    modifies scope
    ensures OnlyTop(old(scope.srcStack), scope.srcStack) && OnlyTop(old(scope.destStack), scope.destStack)
    ensures KVStep(scope.x, fa, sv, dt, key, KV(fields, old(scope.SrcTag()), old(scope.DestTag()))) ==
              Report(r, fields', scope.SrcTag(), scope.DestTag())
    decreases scope.x.c.size(sv), 0, 1
  {
    var x := scope.x;
    var u := x.c.u;
    fields' := fields;
    var found;
    found, fields', r := CheckFieldRules(scope, fa, sv, key, fields);
    if found {
      return;
    }
    var stag, dtag := if sv.VStruct? then TagOf(u, sv.t, key) else "", TagOf(u, dt, key);
    var keys := if x.c.mapping.Some? then x.c.mapping.value(key, stag, dtag) else (key, key);
    var sf := KVValue(u, sv, keys.0);
    if sf.None? || keys.1 !in fields {
      if x.fl.ignoreMissing {
        r := Done(sv);
      } else {
        r := Failed;
      }
      return;
    }
    scope.Retag(stag, dtag);
    r := FromSource(scope, fa, sv, keys.1, keys.0, sf.value, fields[keys.1]);
    if r.Done? {
      fields' := fields[keys.1 := r.v];
    }
  }

  /** What a round of the field loops reports: the fields on success, and otherwise only how it ended. */
  ghost function Report(r: Outcome, fields: map<string, Value>, stag: string, dtag: string): KVOutcome {
    match r
    case Done(_) => KVDone(KV(fields, stag, dtag))
    case Failed => KVFailed
    case Panicked => KVPanicked
  }

  method CheckFieldRules(scope: Scope, fa: bool, sv: Value, key: string, fields: map<string, Value>)
    returns (found: bool, fields': map<string, Value>, r: Outcome)
    requires scope.Ready()
    modifies scope
    ensures OnlyTop(old(scope.srcStack), scope.srcStack) && OnlyTop(old(scope.destStack), scope.destStack)
    ensures scope.SrcTag() == old(scope.SrcTag()) && scope.DestTag() == old(scope.DestTag())
    ensures CheckField(scope.x, fa, sv, key, KV(fields, scope.SrcTag(), scope.DestTag())) ==
              Checked(found, Report(r, fields', scope.SrcTag(), scope.DestTag()))
    ensures !found ==> r.Done? && fields' == fields
    decreases scope.x.c.size(sv), 0, 0
  {
    var x := scope.x;
    found, fields', r := false, fields, Done(sv);
    if !x.fl.sourceToDest {
      if key in fields {
        var rules := Rules(x.c.structFieldSources, (fields[key].t, key));
        found, fields', r := FromSources(scope, fa, sv, key, rules, fields);
      }
    } else {
      var sf := KVValue(x.c.u, sv, key);
      if sf.Some? {
        var rules := Rules(x.c.structFieldDests, (sf.value.t, key));
        found, fields', r := ToDests(scope, fa, sv, key, sf.value, rules, fields);
      }
    }
  }

  method FromSources(
    scope: Scope, fa: bool, sv: Value, key: string, rules: seq<FieldRule>, fields: map<string, Value>)
    returns (found: bool, fields': map<string, Value>, r: Outcome)
    requires scope.Ready() && key in fields
    modifies scope
    ensures OnlyTop(old(scope.srcStack), scope.srcStack) && OnlyTop(old(scope.destStack), scope.destStack)
    ensures scope.SrcTag() == old(scope.SrcTag()) && scope.DestTag() == old(scope.DestTag())
    ensures SourceRules(scope.x, fa, sv, key, rules, 0, KV(fields, scope.SrcTag(), scope.DestTag()), false) ==
              Checked(found, Report(r, fields', scope.SrcTag(), scope.DestTag()))
    ensures !found ==> r.Done? && fields' == fields
    decreases scope.x.c.size(sv), 0, 0, |rules|
  {
    var x := scope.x;
    found, fields', r := false, fields, Done(sv);
    ghost var stag, dtag := scope.SrcTag(), scope.DestTag();
    for j := 0 to |rules|
      invariant scope.Ready() && scope.SrcTag() == stag && scope.DestTag() == dtag
      invariant OnlyTop(old(scope.srcStack), scope.srcStack) && OnlyTop(old(scope.destStack), scope.destStack)
      invariant key in fields' && r.Done? && (!found ==> fields' == fields)
      invariant SourceRules(x, fa, sv, key, rules, j, KV(fields', stag, dtag), found) ==
                SourceRules(x, fa, sv, key, rules, 0, KV(fields, stag, dtag), false)
    {
      var sf := KVValue(x.c.u, sv, rules[j].1);
      if sf.Some? && sf.value.t == rules[j].0 {
        r := FromSource(scope, fa, sv, key, rules[j].1, sf.value, fields'[key]);
        found := true;
        if !r.Done? {
          return;
        }
        fields' := fields'[key := r.v];
      }
    }
  }

  /** The source field `skey`, whose value is sf, converted into the destination field `key`. */
  method FromSource(scope: Scope, fa: bool, sv: Value, key: string, skey: string, sf: Value, dv: Value) returns (r: Outcome)
    requires scope.Ready() && Child(sf, sv)
    modifies scope
    ensures OnlyTop(old(scope.srcStack), scope.srcStack) && OnlyTop(old(scope.destStack), scope.destStack)
    ensures scope.SrcTag() == old(scope.SrcTag()) && scope.DestTag() == old(scope.DestTag())
    ensures r == Conv(scope.x, fa, sf, scope.x.c.u.exported(key), dv, scope.SrcTag(), scope.DestTag())
    decreases scope.x.c.size(sv), 0, 0, 0
  {
    scope.Relabel(FieldName(skey), FieldName(key));
    r := Convert(scope, fa, sf, scope.x.c.u.exported(key), dv);
  }

  method ToDests(
    scope: Scope, fa: bool, sv: Value, key: string, sf: Value, rules: seq<FieldRule>, fields: map<string, Value>)
    returns (found: bool, fields': map<string, Value>, r: Outcome)
    requires scope.Ready() && Child(sf, sv)
    modifies scope
    ensures OnlyTop(old(scope.srcStack), scope.srcStack) && OnlyTop(old(scope.destStack), scope.destStack)
    ensures scope.SrcTag() == old(scope.SrcTag()) && scope.DestTag() == old(scope.DestTag())
    ensures DestRules(scope.x, fa, sv, key, sf, rules, 0, KV(fields, scope.SrcTag(), scope.DestTag()), false) ==
              Checked(found, Report(r, fields', scope.SrcTag(), scope.DestTag()))
    ensures !found ==> r.Done? && fields' == fields
    decreases scope.x.c.size(sv), 0, 0, |rules|
  {
    var x := scope.x;
    found, fields', r := false, fields, Done(sv);
    ghost var stag, dtag := scope.SrcTag(), scope.DestTag();
    for j := 0 to |rules|
      invariant scope.Ready() && scope.SrcTag() == stag && scope.DestTag() == dtag
      invariant OnlyTop(old(scope.srcStack), scope.srcStack) && OnlyTop(old(scope.destStack), scope.destStack)
      invariant r.Done? && (!found ==> fields' == fields)
      invariant DestRules(x, fa, sv, key, sf, rules, j, KV(fields', stag, dtag), found) ==
                DestRules(x, fa, sv, key, sf, rules, 0, KV(fields, stag, dtag), false)
    {
      var dkey := rules[j].1;
      if dkey in fields' && fields'[dkey].t == rules[j].0 {
        r := FromSource(scope, fa, sv, dkey, key, sf, fields'[dkey]);
        found := true;
        if !r.Done? {
          return;
        }
        fields' := fields'[dkey := r.v];
      }
    }
  }
}
