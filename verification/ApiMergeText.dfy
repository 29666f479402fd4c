/**
 The merge of runtime-config overrides (pkg/genericapiserver/default_storage_factory_builder.go) in terms of the
 texts an operator writes: which keys name what, and which values mean on and off.
 */
module ApiMergeText {
  import opened Strings
  import opened Wrappers
  import opened ResourceConfig
  import opened ApiMerge
  import opened ApiMergeOrder

  /** The text names the version as group/version; api/v1 is the version v1 of the group without a name. */
  predicate Spells(text: string, gv: GroupVersion) {
    if text == "api/v1" then gv == GroupVersion("", "v1")
    else '/' !in gv.group && '/' !in gv.version && text == gv.group + "/" + gv.version
  }

  predicate NamesVersion(key: string, gv: GroupVersion) {
    key != "api/all" && key != "api/legacy" && Spells(key, gv)
  }

  ghost predicate NamesResource(key: string, gv: GroupVersion, r: string) {
    '/' !in r && exists text :: Spells(text, gv) && key == text + "/" + r
  }

  // ----- keys -----

  lemma {:induction false} SpelledParts(text: string, gv: GroupVersion)
    requires Spells(text, gv)
    ensures |Split(text, "/")| == 2 && Named(Split(text, "/")[0], Split(text, "/")[1]) == gv
    ensures text == Split(text, "/")[0] + "/" + Split(text, "/")[1]
  {
    assert "api" + "/" + "v1" == "api/v1";
    if text == "api/v1" {
      TwoParts("api", "v1");
    } else {
      TwoParts(gv.group, gv.version);
      LegacySpelling(gv.group, gv.version);
    }
  }

  lemma {:induction false} PartsSpell(a: string, b: string)
    requires '/' !in a && '/' !in b
    ensures Spells(a + "/" + b, Named(a, b))
  {
    LegacySpelling(a, b);
  }

  lemma {:induction false} TwoPartText(key: string)
    requires |Split(key, "/")| == 2
    ensures var t := Split(key, "/"); '/' !in t[0] && '/' !in t[1] && key == t[0] + "/" + t[1]
  {
    var t := Split(key, "/");
    PartsHaveNoSep(key, '/');
    JoinSplit(key, "/");
    assert t == [t[0], t[1]];
    assert Join([t[1]], "/") == t[1];
  }

  lemma {:induction false} VersionKeysAreNames(key: string, gv: GroupVersion)
    ensures VersionKey(key) == Some(Ok(gv)) <==> NamesVersion(key, gv)
  {
    var t := Split(key, "/");
    KeyParts(key);
    if VersionKey(key) == Some(Ok(gv)) {
      TwoPartText(key);
      PartsSpell(t[0], t[1]);
    }
    if NamesVersion(key, gv) {
      SpelledParts(key, gv);
    }
  }

  lemma {:induction false} ThreeParts(text: string, r: string)
    requires |Split(text, "/")| == 2 && '/' !in r
    ensures var t := Split(text, "/"); Split(text + "/" + r, "/") == [t[0], t[1], r]
  {
    var t := Split(text, "/");
    TwoPartText(text);
    assert text + "/" + r == t[0] + "/" + (t[1] + "/" + r);
    SplitFirstChar(t[0], '/', t[1] + "/" + r);
    TwoParts(t[1], r);
  }

  lemma {:induction false} JoinThree(a: string, b: string, c: string)
    ensures Join([a, b, c], "/") == a + "/" + b + "/" + c
  {
    assert [a, b, c][1..] == [b, c] && [b, c][1..] == [c];
    assert Join([b, c], "/") == b + "/" + c;
    assert a + "/" + (b + "/" + c) == a + "/" + b + "/" + c;
  }

  lemma {:induction false} ThreePartText(key: string)
    requires |Split(key, "/")| == 3
    ensures var t := Split(key, "/");
            '/' !in t[0] && '/' !in t[1] && '/' !in t[2] && key == t[0] + "/" + t[1] + "/" + t[2]
  {
    var t := Split(key, "/");
    PartsHaveNoSep(key, '/');
    JoinSplit(key, "/");
    JoinThree(t[0], t[1], t[2]);
    assert t == [t[0], t[1], t[2]];
  }

  lemma {:induction false} ResourceKeysAreNames(key: string, gv: GroupVersion, r: string)
    ensures ResourceKey(key) == Some(Ok((gv, r))) <==> NamesResource(key, gv, r)
  {
    var t := Split(key, "/");
    KeyParts(key);
    if ResourceKey(key) == Some(Ok((gv, r))) {
      ThreePartText(key);
      PartsSpell(t[0], t[1]);
    }
    if NamesResource(key, gv, r) {
      var text :| Spells(text, gv) && key == text + "/" + r;
      SpelledParts(text, gv);
      ThreeParts(text, r);
      assert ResourceKey(key).Some?;
    }
  }

  // ----- what a successful merge says -----

  /** A successful merge has every version on that some key switches on and none switches off; and the reverse. */
  lemma {:induction false} VersionFollowsText(
    registered: seq<GroupVersion>, defaults: Configs, overrides: Overrides, o1: seq<string>, o2: seq<string>,
    key: string, gv: GroupVersion)
    requires IsOrder(overrides, o1) && IsOrder(overrides, o2) && Merge(registered, defaults, overrides, o1, o2).Ok?
    requires key in overrides && NamesVersion(key, gv)
    ensures var c := Merge(registered, defaults, overrides, o1, o2).value;
            && gv in c
            && ((forall k :: k in overrides && NamesVersion(k, gv) ==> SaysOn(overrides[k])) ==> c[gv].enable)
            && ((forall k :: k in overrides && NamesVersion(k, gv) ==> SaysOff(overrides[k])) ==> !c[gv].enable)
  {
    var base := AfterAll(registered, defaults, overrides);
    var mid := VersionLoop(registered, overrides, o1, base).value;
    VersionLoopOk(registered, overrides, o1, base);
    VersionLoopResult(registered, overrides, o1, base);
    ResourceLoopOk(registered, overrides, o2, mid);
    assert VersionWritten(overrides, o1, base, mid, gv);
    assert Entry(Merge(registered, defaults, overrides, o1, o2).value, gv).enable == Entry(mid, gv).enable;
    VersionKeysAreNames(key, gv);
    assert VersionKeyOk(registered, overrides, key);
    LastVersionIsSaid(overrides, o1, gv);
    var k :| k in o1 && VersionWrite(overrides, k, gv) == LastVersion(overrides, o1, gv);
    VersionKeysAreNames(k, gv);
    TextsAreValues(overrides, k);
  }

  /** The same for resources: in a successful merge a resource is enabled if its keys say so, and only then. */
  lemma {:induction false} ResourceFollowsText(
    registered: seq<GroupVersion>, defaults: Configs, overrides: Overrides, o1: seq<string>, o2: seq<string>,
    key: string, gv: GroupVersion, r: string)
    requires IsOrder(overrides, o1) && IsOrder(overrides, o2) && Merge(registered, defaults, overrides, o1, o2).Ok?
    requires key in overrides && NamesResource(key, gv, r)
    ensures var c := Merge(registered, defaults, overrides, o1, o2).value;
            && ((forall k :: k in overrides && NamesResource(k, gv, r) ==> SaysOn(overrides[k])) ==> ResourceEnabled(c, gv, r))
            && ((forall k :: k in overrides && NamesResource(k, gv, r) ==> SaysOff(overrides[k])) ==> !ResourceEnabled(c, gv, r))
  {
    var mid := VersionLoop(registered, overrides, o1, AfterAll(registered, defaults, overrides)).value;
    ResourceLoopOk(registered, overrides, o2, mid);
    var c := Merge(registered, defaults, overrides, o1, o2).value;
    ResourceKeysAreNames(key, gv, r);
    assert ResourceKeyOk(registered, overrides, mid, key);
    assert ResourceWritten(overrides, o2, mid, c, gv, r) && Entry(c, gv).enable == Entry(mid, gv).enable;
    LastResourceIsSaid(overrides, o2, gv, r);
    var k :| k in o2 && ResourceWrite(overrides, k, gv, r) == LastResource(overrides, o2, gv, r);
    ResourceKeysAreNames(k, gv, r);
    TextsAreValues(overrides, k);
  }

  /** A key for an unregistered version, or a text that is neither on nor off, makes the merge fail. */
  lemma {:induction false} BadKeysFail(
    registered: seq<GroupVersion>, defaults: Configs, overrides: Overrides, o1: seq<string>, o2: seq<string>,
    key: string, gv: GroupVersion, r: string)
    requires IsOrder(overrides, o1) && IsOrder(overrides, o2) && key in overrides
    requires NamesVersion(key, gv) || NamesResource(key, gv, r)
    requires gv !in registered || !(SaysOn(overrides[key]) || SaysOff(overrides[key]))
    ensures Merge(registered, defaults, overrides, o1, o2).Err?
  {
    var base := AfterAll(registered, defaults, overrides);
    VersionKeysAreNames(key, gv);
    ResourceKeysAreNames(key, gv, r);
    TextsAreValues(overrides, key);
    VersionLoopOk(registered, overrides, o1, base);
    if VersionLoop(registered, overrides, o1, base).Ok? {
      ResourceLoopOk(registered, overrides, o2, VersionLoop(registered, overrides, o1, base).value);
    }
  }

  /**
   A version without a key of its own: the exact texts true and false under api/all switch the registered ones,
   and otherwise it stays as it was by default.
   */
  lemma {:induction false} AllSwitchesTheRest(
    registered: seq<GroupVersion>, defaults: Configs, overrides: Overrides, o1: seq<string>, o2: seq<string>, gv: GroupVersion)
    requires IsOrder(overrides, o1) && IsOrder(overrides, o2) && Merge(registered, defaults, overrides, o1, o2).Ok?
    requires forall k :: k in overrides ==> !NamesVersion(k, gv)
    ensures var c := Merge(registered, defaults, overrides, o1, o2).value;
            if gv in registered && "api/all" in overrides && overrides["api/all"] == "true" then gv in c && c[gv].enable
            else if gv in registered && "api/all" in overrides && overrides["api/all"] == "false" then gv in c && !c[gv].enable
            else (gv in c <==> gv in defaults) && (gv in c ==> c[gv].enable == defaults[gv].enable)
  {
    var base := AfterAll(registered, defaults, overrides);
    var mid := VersionLoop(registered, overrides, o1, base).value;
    VersionLoopResult(registered, overrides, o1, base);
    ResourceLoopOk(registered, overrides, o2, mid);
    assert VersionWritten(overrides, o1, base, mid, gv);
    assert Entry(Merge(registered, defaults, overrides, o1, o2).value, gv).enable == Entry(mid, gv).enable;
    LastVersionIsSaid(overrides, o1, gv);
    if LastVersion(overrides, o1, gv).Some? {
      var k :| k in o1 && VersionWrite(overrides, k, gv) == LastVersion(overrides, o1, gv);
      VersionKeysAreNames(k, gv);
      assert false;
    }
    SetVersionsPointwise(defaults, registered, false);
    SetVersionsPointwise(defaults, registered, true);
  }
}
