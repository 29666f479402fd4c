/**
 What convertKV and checkField of pkg/conversion/converter.go do with one field, said of the field values
 themselves: which source field goes into which destination field, with which tags, under a name mapping,
 under field-copy rules, and when a field is missing.
 */
module ConverterFields {
  import opened Wrappers
  import opened ConverterSpec

  /** The first field of that name carries that tag, or there is none and the tag is empty. */
  ghost predicate Tagged(fs: seq<FieldDesc>, name: string, tag: string) {
    || (exists i: nat :: FirstNamed(fs, name, i) && fs[i].tag == tag)
    || ((forall i :: 0 <= i < |fs| ==> fs[i].name != name) && tag == "")
  }

  ghost predicate FirstNamed(fs: seq<FieldDesc>, name: string, i: nat) {
    i < |fs| && fs[i].name == name && forall j :: 0 <= j < i ==> fs[j].name != name
  }

  lemma {:induction false} TagIsFound(fs: seq<FieldDesc>, name: string)
    ensures Tagged(fs, name, FindTag(fs, name))
  {
    if |fs| > 0 {
      if fs[0].name == name {
        assert FirstNamed(fs, name, 0);
      } else {
        TagIsFound(fs[1..], name);
        if i: nat :| FirstNamed(fs[1..], name, i) && fs[1..][i].tag == FindTag(fs[1..], name) {
          forall j | 0 <= j < i + 1 ensures fs[j].name != name {
            assert j > 0 ==> fs[1..][j - 1].name != name;
          }
          assert FirstNamed(fs, name, i + 1);
        } else {
          forall j | 0 <= j < |fs| ensures fs[j].name != name {
            assert j > 0 ==> fs[1..][j - 1].name != name;
          }
        }
      }
    }
  }

  /** The tags a round of the loop sees: those of the fields of that name, none for a map. */
  ghost predicate TagsAre(u: Universe, sv: Value, dt: TypeId, key: string, stag: string, dtag: string) {
    && (if sv.VStruct? && u.desc(sv.t).StructT? then Tagged(u.desc(sv.t).fields, key, stag) else stag == "")
    && (if u.desc(dt).StructT? then Tagged(u.desc(dt).fields, key, dtag) else dtag == "")
  }

  /** No field-copy rule is registered for the field. */
  ghost predicate NoRules(x: Ctx, key: string) {
    if x.fl.sourceToDest then
      forall t :: (t, key) !in x.c.structFieldDests
    else
      forall t :: (t, key) !in x.c.structFieldSources
  }

  /** Which fields a round is about: those the mapping names, or the key itself on both sides. */
  ghost function Names(x: Ctx, key: string, stag: string, dtag: string): (string, string) {
    match x.c.mapping
    case Some(f) => f(key, stag, dtag)
    case None => (key, key)
  }

  /** Where the source keeps the value of that name: a struct field, or the entry under the string as a key. */
  ghost predicate SourceField(u: Universe, sv: Value, name: string, f: Value) {
    match sv
    case VStruct(_, fs) => name in fs && fs[name] == f
    case VMap(t, m) => u.desc(t).MapT? && u.keyOf(u.desc(t).key, name) in m && m[u.keyOf(u.desc(t).key, name)] == f
    case _ => false
  }

  ghost predicate NoSourceField(u: Universe, sv: Value, name: string) {
    forall f :: !SourceField(u, sv, name, f)
  }

  lemma {:induction false} KVValueFinds(u: Universe, sv: Value, name: string)
    ensures match KVValue(u, sv, name) case Some(f) => SourceField(u, sv, name, f) case None => NoSourceField(u, sv, name)
  {
  }

  /** Apart from the one field, and the tags now on the stacks, nothing moves. */
  ghost predicate Became(o: KVOutcome, kv: KV, name: string, r: Outcome, stag: string, dtag: string) {
    match r
    case Done(v) => o == KVDone(KV(kv.fields[name := v], stag, dtag))
    case Failed => o == KVFailed
    case Panicked => o == KVPanicked
  }

  lemma {:induction false} TagsAreFound(u: Universe, sv: Value, dt: TypeId, key: string) returns (stag: string, dtag: string)
    ensures TagsAre(u, sv, dt, key, stag, dtag)
    ensures stag == (if sv.VStruct? then TagOf(u, sv.t, key) else "") && dtag == TagOf(u, dt, key)
  {
    stag, dtag := if sv.VStruct? then TagOf(u, sv.t, key) else "", TagOf(u, dt, key);
    if sv.VStruct? && u.desc(sv.t).StructT? {
      TagIsFound(u.desc(sv.t).fields, key);
    }
    if u.desc(dt).StructT? {
      TagIsFound(u.desc(dt).fields, key);
    }
  }

  /** A round without rules, past its look at the rules. */
  lemma {:induction false} RoundByName(x: Ctx, fa: bool, sv: Value, dt: TypeId, key: string, kv: KV, stag: string, dtag: string)
    requires Valid(x.c) && CheckField(x, fa, sv, key, kv) == Checked(false, KVDone(kv))
    requires stag == (if sv.VStruct? then TagOf(x.c.u, sv.t, key) else "") && dtag == TagOf(x.c.u, dt, key)
    ensures var (skey, dkey) := Names(x, key, stag, dtag);
            var sf := KVValue(x.c.u, sv, skey);
            if sf.Some? && dkey in kv.fields
            then Became(KVStep(x, fa, sv, dt, key, kv), kv, dkey,
                        Conv(x, fa, sf.value, x.c.u.exported(dkey), kv.fields[dkey], stag, dtag), stag, dtag)
            else KVStep(x, fa, sv, dt, key, kv) == if x.fl.ignoreMissing then KVDone(kv) else KVFailed
  {
  }

  /**
   One field without rules: if both sides have the fields the names lead to, the source's is converted into the
   destination's, under the tags of the key; if one is missing, the round is skipped or fails, as the flag says.
   */
  lemma {:induction false} OneField(x: Ctx, fa: bool, sv: Value, dt: TypeId, key: string, kv: KV)
    returns (stag: string, dtag: string)
    requires Valid(x.c) && NoRules(x, key)
    ensures TagsAre(x.c.u, sv, dt, key, stag, dtag)
    ensures var (skey, dkey) := Names(x, key, stag, dtag);
            && (forall f :: SourceField(x.c.u, sv, skey, f) && dkey in kv.fields ==>
                  Became(KVStep(x, fa, sv, dt, key, kv), kv, dkey,
                         Conv(x, fa, f, x.c.u.exported(dkey), kv.fields[dkey], stag, dtag), stag, dtag))
            && (NoSourceField(x.c.u, sv, skey) || dkey !in kv.fields ==>
                  KVStep(x, fa, sv, dt, key, kv) == if x.fl.ignoreMissing then KVDone(kv) else KVFailed)
  {
    RulesAbsent(x, fa, sv, key, kv);
    stag, dtag := TagsAreFound(x.c.u, sv, dt, key);
    RoundByName(x, fa, sv, dt, key, kv, stag, dtag);
    KVValueFinds(x.c.u, sv, Names(x, key, stag, dtag).0);
  }

  lemma {:induction false} RulesAbsent(x: Ctx, fa: bool, sv: Value, key: string, kv: KV)
    requires Valid(x.c) && NoRules(x, key)
    ensures CheckField(x, fa, sv, key, kv) == Checked(false, KVDone(kv))
  {
  }

  // ----- field-copy rules -----

  /** The rule applies: the source has the field it names, with the type it names. */
  ghost predicate SourceFits(u: Universe, sv: Value, rule: FieldRule) {
    exists f :: SourceField(u, sv, rule.1, f) && f.t == rule.0
  }

  /**
   From the destination's side: if just one of the rules for the destination field applies, the source field it
   names is converted into the destination field, and the field's own name plays no part.
   */
  lemma {:induction false} OneSourceRule(
    x: Ctx, fa: bool, sv: Value, dt: TypeId, key: string, kv: KV, rules: seq<FieldRule>, j: nat, f: Value)
    requires Valid(x.c) && !x.fl.sourceToDest && key in kv.fields
    requires (kv.fields[key].t, key) in x.c.structFieldSources && x.c.structFieldSources[(kv.fields[key].t, key)] == rules
    requires j < |rules| && SourceField(x.c.u, sv, rules[j].1, f) && f.t == rules[j].0
    requires forall l :: 0 <= l < |rules| && l != j ==> !SourceFits(x.c.u, sv, rules[l])
    ensures Became(KVStep(x, fa, sv, dt, key, kv), kv, key,
                   Conv(x, fa, f, x.c.u.exported(key), kv.fields[key], kv.stag, kv.dtag), kv.stag, kv.dtag)
  {
    SourceRulesBefore(x, fa, sv, key, rules, 0, j, kv, false);
    KVValueFinds(x.c.u, sv, rules[j].1);
    var o := Conv(x, fa, f, x.c.u.exported(key), kv.fields[key], kv.stag, kv.dtag);
    if o.Done? {
      SourceRulesBefore(x, fa, sv, key, rules, j + 1, |rules|, kv.(fields := kv.fields[key := o.v]), true);
    }
  }

  /** Rules that do not apply are passed over. */
  lemma {:induction false} SourceRulesBefore(
    x: Ctx, fa: bool, sv: Value, key: string, rules: seq<FieldRule>, i: nat, j: nat, kv: KV, made: bool)
    requires Valid(x.c) && key in kv.fields && i <= j <= |rules|
    requires forall l :: i <= l < j ==> !SourceFits(x.c.u, sv, rules[l])
    ensures SourceRules(x, fa, sv, key, rules, i, kv, made) == SourceRules(x, fa, sv, key, rules, j, kv, made)
    decreases j - i
  {
    if i < j {
      KVValueFinds(x.c.u, sv, rules[i].1);
      SourceRulesBefore(x, fa, sv, key, rules, i + 1, j, kv, made);
    }
  }

  /** The destination has the field the rule names, with the type it names. */
  ghost predicate DestFits(kv: KV, rule: FieldRule) {
    rule.1 in kv.fields && kv.fields[rule.1].t == rule.0
  }

  /** From the source's side: if just one rule for the source field applies, it goes into the field that rule names. */
  lemma {:induction false} OneDestRule(
    x: Ctx, fa: bool, sv: Value, dt: TypeId, key: string, f: Value, kv: KV, rules: seq<FieldRule>, j: nat)
    requires Valid(x.c) && x.fl.sourceToDest && SourceField(x.c.u, sv, key, f)
    requires (f.t, key) in x.c.structFieldDests && x.c.structFieldDests[(f.t, key)] == rules
    requires j < |rules| && DestFits(kv, rules[j])
    requires forall l :: 0 <= l < |rules| && l != j ==> rules[l].1 != rules[j].1 && !DestFits(kv, rules[l])
    ensures var dkey := rules[j].1;
            Became(KVStep(x, fa, sv, dt, key, kv), kv, dkey,
                   Conv(x, fa, f, x.c.u.exported(dkey), kv.fields[dkey], kv.stag, kv.dtag), kv.stag, kv.dtag)
  {
    KVValueFinds(x.c.u, sv, key);
    var dkey := rules[j].1;
    assert Child(f, sv);
    DestRulesBefore(x, fa, sv, key, f, rules, 0, j, kv, false);
    var o := Conv(x, fa, f, x.c.u.exported(dkey), kv.fields[dkey], kv.stag, kv.dtag);
    if o.Done? {
      DestRulesBefore(x, fa, sv, key, f, rules, j + 1, |rules|, kv.(fields := kv.fields[dkey := o.v]), true);
    }
  }

  lemma {:induction false} DestRulesBefore(
    x: Ctx, fa: bool, sv: Value, key: string, f: Value, rules: seq<FieldRule>, i: nat, j: nat, kv: KV, made: bool)
    requires Valid(x.c) && Child(f, sv) && i <= j <= |rules|
    requires forall l :: i <= l < j ==> !DestFits(kv, rules[l])
    ensures DestRules(x, fa, sv, key, f, rules, i, kv, made) == DestRules(x, fa, sv, key, f, rules, j, kv, made)
    decreases j - i
  {
    if i < j {
      DestRulesBefore(x, fa, sv, key, f, rules, i + 1, j, kv, made);
    }
  }

  // ----- names and settability -----

  /** Without a registered function: an unsettable destination, or names that differ without leave, are refused. */
  lemma {:induction false} RefusedByDefault(x: Ctx, sa: bool, sv: Value, canSet: bool, dv: Value, stag: string, dtag: string)
    requires Valid(x.c) && sv.t !in x.c.defaultingFuncs && (sv.t, dv.t) !in x.c.ignoredConversions
    requires (sv.t, dv.t) !in x.c.conversionFuncs && (sv.t, dv.t) !in x.c.generatedConversionFuncs
    requires !canSet || (!x.fl.allowNames && x.c.u.name(sv.t) != x.c.u.name(dv.t))
    ensures Conv(x, sa, sv, canSet, dv, stag, dtag) == Failed
  {
  }

  // ----- pointers and interfaces -----

  /** What a source refers to, and whether that is addressable; a slice or a map stands for itself. */
  ghost predicate RefersTo(sa: bool, sv: Value, c: Value, addressable: bool) {
    match sv
    case VPtr(_, target) => c == target && addressable
    case VIface(_, d) => c == d && !addressable
    case VSlice(_, _) => c == sv && addressable == sa
    case VMap(_, _) => c == sv && addressable == sa
    case _ => false
  }

  /** Into a pointer: nil stays nil, and otherwise what the source refers to is converted into a new zero target. */
  lemma {:induction false} IntoPointer(x: Ctx, sa: bool, sv: Value, dv: Value, c: Value, addressable: bool)
    requires Valid(x.c) && x.c.u.desc(dv.t).PtrT?
    ensures sv.VNil? ==> KindConv(x, sa, sv, dv) == Done(VNil(dv.t))
    ensures RefersTo(sa, sv, c, addressable) ==>
              var o := Conv(x, addressable, c, true, x.c.u.zero(x.c.u.desc(dv.t).elem), "", "");
              KindConv(x, sa, sv, dv) == if o.Done? then Done(VPtr(dv.t, o.v)) else o
  {
  }

  lemma {:induction false} InterfaceUnrolled(x: Ctx, sa: bool, sv: Value, dv: Value, c: Value, addressable: bool)
    requires Valid(x.c) && x.c.u.desc(dv.t).IfaceT? && (sv.VPtr? || sv.VIface?) && RefersTo(sa, sv, c, addressable)
    ensures KindConv(x, sa, sv, dv) == Stored(x.c.u, dv.t, Conv(x, addressable, c, true, x.c.u.zero(c.t), "", ""))
  {
  }

  /** A dynamic value can be stored if its type implements the interface; anything else panics. */
  lemma {:induction false} StoredIfImplements(u: Universe, dt: TypeId, o: Outcome)
    requires o.Done? ==> !o.v.VIface? && !(o.v.VNil? && u.desc(o.v.t).IfaceT?)
    ensures Stored(u, dt, o) ==
            if !o.Done? then o else if u.implements(o.v.t, dt) then Done(VIface(dt, o.v)) else Panicked
  {
  }

  /**
   Into an interface: nil stays nil, and otherwise a value of the type referred to is converted and stored, which
   panics if that type does not implement the interface.
   */
  lemma {:induction false} IntoInterface(x: Ctx, sa: bool, sv: Value, dv: Value, c: Value, addressable: bool, o: Outcome)
    requires Valid(x.c) && x.c.u.desc(dv.t).IfaceT? && (sv.VPtr? || sv.VIface?) && RefersTo(sa, sv, c, addressable)
    requires o == Conv(x, addressable, c, true, x.c.u.zero(c.t), "", "")
    requires o.Done? ==> !o.v.VIface? && !(o.v.VNil? && x.c.u.desc(o.v.t).IfaceT?)
    ensures KindConv(x, sa, sv, dv) ==
            if !o.Done? then o else if x.c.u.implements(o.v.t, dv.t) then Done(VIface(dv.t, o.v)) else Panicked
    ensures KindConv(x, sa, VNil(sv.t), dv) == Done(VNil(dv.t))
  {
    InterfaceUnrolled(x, sa, sv, dv, c, addressable);
    StoredIfImplements(x.c.u, dv.t, o);
  }

  // ----- elements and entries -----

  /** What becomes of one element of a slice: it is converted into a fresh zero value, under no tags. */
  ghost function Element(x: Ctx, sv: Value, e: TypeId, i: nat): Outcome
    requires Valid(x.c) && sv.VSlice? && i < |sv.elems|
  {
    Conv(x, true, sv.elems[i], true, x.c.u.zero(e), "", "")
  }

  ghost predicate AllElements(x: Ctx, sv: Value, dt: TypeId, e: TypeId, w: Value)
    requires Valid(x.c) && sv.VSlice?
  {
    && w.VSlice? && w.t == dt && |w.elems| == |sv.elems|
    && forall j :: 0 <= j < |sv.elems| ==> Element(x, sv, e, j) == Done(w.elems[j])
  }

  /** Element j is the first that does not convert, and o is how it ends. */
  ghost predicate StopsAt(x: Ctx, sv: Value, e: TypeId, j: nat, o: Outcome)
    requires Valid(x.c) && sv.VSlice?
  {
    && j < |sv.elems| && o == Element(x, sv, e, j) && !o.Done?
    && forall l :: 0 <= l < j ==> Element(x, sv, e, l).Done?
  }

  lemma {:induction false} ElementsFrom(x: Ctx, sv: Value, dt: TypeId, e: TypeId, i: nat, outs: seq<Value>)
    requires Valid(x.c) && sv.VSlice? && |outs| == i <= |sv.elems|
    requires forall j :: 0 <= j < i ==> Element(x, sv, e, j) == Done(outs[j])
    ensures var o := SliceFrom(x, sv, dt, e, i, outs);
            if o.Done? then AllElements(x, sv, dt, e, o.v) else exists j: nat :: StopsAt(x, sv, e, j, o)
    decreases |sv.elems| - i
  {
    if i < |sv.elems| {
      assert Child(sv.elems[i], sv);
      var o := Element(x, sv, e, i);
      if o.Done? {
        ElementsFrom(x, sv, dt, e, i + 1, outs + [o.v]);
      } else {
        assert StopsAt(x, sv, e, i, o);
      }
    }
  }

  /** A slice is converted element by element; if one fails or panics, the first such decides. */
  lemma {:induction false} SliceByElements(x: Ctx, sa: bool, sv: Value, dv: Value)
    requires Valid(x.c) && sv.VSlice? && x.c.u.desc(dv.t).SliceT?
    ensures var e, o := x.c.u.desc(dv.t).elem, KindConv(x, sa, sv, dv);
            if o.Done? then AllElements(x, sv, dv.t, e, o.v) else exists j: nat :: StopsAt(x, sv, e, j, o)
  {
    ElementsFrom(x, sv, dv.t, x.c.u.desc(dv.t).elem, 0, []);
  }

  /** Keys and values of a map are converted apart, from copies that are not addressable, into fresh zero values. */
  ghost function NewKey(x: Ctx, kt: TypeId, k: Value): Outcome
    requires Valid(x.c)
  {
    Conv(x, false, k, true, x.c.u.zero(kt), "", "")
  }

  ghost predicate EntryIn(x: Ctx, sv: Value, kt: TypeId, e: TypeId, k: Value, out: map<Value, Value>)
    requires Valid(x.c) && sv.VMap? && k in sv.m
  {
    && NewKey(x, kt, k).Done? && NewKey(x, e, sv.m[k]).Done?
    && NewKey(x, kt, k).v in out && out[NewKey(x, kt, k).v] == NewKey(x, e, sv.m[k]).v
  }

  ghost predicate Distinct(x: Ctx, kt: TypeId, keys: seq<Value>)
    requires Valid(x.c)
  {
    forall i, j :: 0 <= i < j < |keys| ==> NewKey(x, kt, keys[i]) != NewKey(x, kt, keys[j])
  }

  /** The entries of the first i keys, and no others. */
  ghost predicate JustEntries(x: Ctx, sv: Value, kt: TypeId, e: TypeId, keys: seq<Value>, i: nat, out: map<Value, Value>)
    requires Valid(x.c) && sv.VMap? && i <= |keys| && forall k :: k in keys ==> k in sv.m
  {
    && (forall j :: 0 <= j < i ==> EntryIn(x, sv, kt, e, keys[j], out))
    && (forall k :: k in out ==> exists j :: 0 <= j < i && NewKey(x, kt, keys[j]) == Done(k))
  }

  lemma {:induction false} EntryUnrolled(
    x: Ctx, sv: Value, dt: TypeId, kt: TypeId, e: TypeId, keys: seq<Value>, i: nat, out: map<Value, Value>)
    requires Valid(x.c) && sv.VMap? && i < |keys| && forall k :: k in keys ==> k in sv.m
    ensures var dk, w := NewKey(x, kt, keys[i]), NewKey(x, e, sv.m[keys[i]]);
            MapFrom(x, sv, dt, kt, e, keys, i, out) ==
              if !dk.Done? then dk
              else if !w.Done? then w
              else MapFrom(x, sv, dt, kt, e, keys, i + 1, out[dk.v := w.v])
  {
    var k := keys[i];
    assert Child(k, sv) && sv.m[k] in sv.m.Values && Child(sv.m[k], sv);
  }

  lemma {:induction false} EntriesFrom(
    x: Ctx, sv: Value, dt: TypeId, kt: TypeId, e: TypeId, keys: seq<Value>, i: nat, out: map<Value, Value>)
    requires Valid(x.c) && sv.VMap? && i <= |keys| && (forall k :: k in keys ==> k in sv.m) && Distinct(x, kt, keys)
    requires JustEntries(x, sv, kt, e, keys, i, out)
    ensures var o := MapFrom(x, sv, dt, kt, e, keys, i, out);
            o.Done? ==> o.v.VMap? && o.v.t == dt && JustEntries(x, sv, kt, e, keys, |keys|, o.v.m)
    decreases |keys| - i
  {
    if i < |keys| {
      EntryUnrolled(x, sv, dt, kt, e, keys, i, out);
      var dk, w := NewKey(x, kt, keys[i]), NewKey(x, e, sv.m[keys[i]]);
      if dk.Done? && w.Done? {
        EntryAdded(x, sv, kt, e, keys, i, out);
        EntriesFrom(x, sv, dt, kt, e, keys, i + 1, out[dk.v := w.v]);
      }
    }
  }

  lemma {:induction false} EntryAdded(x: Ctx, sv: Value, kt: TypeId, e: TypeId, keys: seq<Value>, i: nat, out: map<Value, Value>)
    requires Valid(x.c) && sv.VMap? && i < |keys| && (forall k :: k in keys ==> k in sv.m) && Distinct(x, kt, keys)
    requires JustEntries(x, sv, kt, e, keys, i, out)
    requires NewKey(x, kt, keys[i]).Done? && NewKey(x, e, sv.m[keys[i]]).Done?
    ensures JustEntries(x, sv, kt, e, keys, i + 1, out[NewKey(x, kt, keys[i]).v := NewKey(x, e, sv.m[keys[i]]).v])
  {
    var dk := NewKey(x, kt, keys[i]).v;
    var out' := out[dk := NewKey(x, e, sv.m[keys[i]]).v];
    forall j | 0 <= j < i + 1 ensures EntryIn(x, sv, kt, e, keys[j], out') {
      if j < i {
        assert EntryIn(x, sv, kt, e, keys[j], out) && NewKey(x, kt, keys[j]) != NewKey(x, kt, keys[i]);
      }
    }
    forall k | k in out' ensures exists j :: 0 <= j < i + 1 && NewKey(x, kt, keys[j]) == Done(k) {
      if k != dk {
        assert k in out;
        var j :| 0 <= j < i && NewKey(x, kt, keys[j]) == Done(k);
        assert 0 <= j < i + 1;
      }
    }
  }

  /** A map is converted entry by entry: if that succeeds and no two keys fall together, it has just those entries. */
  lemma {:induction false} MapByEntries(x: Ctx, sa: bool, sv: Value, dv: Value)
    requires Valid(x.c) && sv.VMap? && x.c.u.desc(dv.t).MapT? && Distinct(x, x.c.u.desc(dv.t).key, x.c.u.order(sv.m))
    requires KindConv(x, sa, sv, dv).Done?
    ensures var keys, kt, e := x.c.u.order(sv.m), x.c.u.desc(dv.t).key, x.c.u.desc(dv.t).elem;
            var w := KindConv(x, sa, sv, dv).v;
            && w.VMap? && w.t == dv.t && (forall k :: k in keys ==> k in sv.m)
            && JustEntries(x, sv, kt, e, keys, |keys|, w.m)
  {
    var keys := x.c.u.order(sv.m);
    forall k | k in keys ensures k in sv.m {
    }
    EntriesFrom(x, sv, dv.t, x.c.u.desc(dv.t).key, x.c.u.desc(dv.t).elem, keys, 0, map[]);
  }
}
