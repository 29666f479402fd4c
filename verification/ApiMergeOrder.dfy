/**
 When the answer of the merge depends on the order in which Go happens to visit the overrides, and the
 merge itself as the two loops that change the configuration in place
 (pkg/genericapiserver/default_storage_factory_builder.go).
 */
module ApiMergeOrder {
  import opened Permutations
  import opened Strings
  import opened Wrappers
  import opened ResourceConfig
  import opened ApiMerge

  /** Every pair of iteration orders gives the same outcome. */
  ghost predicate OrderFree(registered: seq<GroupVersion>, defaults: Configs, overrides: Overrides) {
    forall o1, o2, p1, p2 ::
      IsOrder(overrides, o1) && IsOrder(overrides, o2) && IsOrder(overrides, p1) && IsOrder(overrides, p2) ==>
      Merge(registered, defaults, overrides, o1, o2) == Merge(registered, defaults, overrides, p1, p2)
  }

  lemma {:induction false} NoConflictSameResult(
    registered: seq<GroupVersion>, defaults: Configs, overrides: Overrides,
    o1: seq<string>, o2: seq<string>, p1: seq<string>, p2: seq<string>)
    requires !Conflict(overrides)
    requires IsOrder(overrides, o1) && IsOrder(overrides, o2) && IsOrder(overrides, p1) && IsOrder(overrides, p2)
    ensures Merge(registered, defaults, overrides, o1, o2) == Merge(registered, defaults, overrides, p1, p2)
  {
    MergeAccepts(registered, defaults, overrides, o1, o2);
    MergeAccepts(registered, defaults, overrides, p1, p2);
    if Accepted(registered, defaults, overrides) {
      var c, d := Merge(registered, defaults, overrides, o1, o2).value, Merge(registered, defaults, overrides, p1, p2).value;
      forall gv ensures (gv in c <==> gv in d) && (gv in c ==> c[gv] == d[gv]) {
        MergeEntry(registered, defaults, overrides, o1, o2, gv, "");
        MergeEntry(registered, defaults, overrides, p1, p2, gv, "");
        forall r ensures r in Entry(c, gv).enabled <==> r in Entry(d, gv).enabled
                 ensures r in Entry(c, gv).disabled <==> r in Entry(d, gv).disabled {
          MergeEntry(registered, defaults, overrides, o1, o2, gv, r);
          MergeEntry(registered, defaults, overrides, p1, p2, gv, r);
        }
        assert Entry(c, gv).enabled == Entry(d, gv).enabled && Entry(c, gv).disabled == Entry(d, gv).disabled;
      }
      assert c == d;
    }
  }

  lemma {:induction false} AnyOrder(keys: set<string>) returns (order: seq<string>)
    ensures Distinct(order) && forall k :: k in order <==> k in keys
    decreases |keys|
  {
    order := [];
    if keys != {} {
      var k :| k in keys;
      var rest := AnyOrder(keys - {k});
      order := rest + [k];
    }
  }

  /** Some order visits the given key last. */
  lemma {:induction false} VisitLast(overrides: Overrides, k: string) returns (o: seq<string>)
    requires k in overrides
    ensures IsOrder(overrides, o) && |o| > 0 && o[|o| - 1] == k
  {
    var rest := AnyOrder(overrides.Keys - {k});
    o := rest + [k];
  }

  lemma {:induction false} VersionConflictShows(
    registered: seq<GroupVersion>, defaults: Configs, overrides: Overrides, o1: seq<string>, o2: seq<string>,
    gv: GroupVersion, k: string, k': string)
    requires IsOrder(overrides, o1) && IsOrder(overrides, o2) && Merge(registered, defaults, overrides, o1, o2).Ok?
    requires VersionConflict(overrides, gv, k, k')
    ensures !OrderFree(registered, defaults, overrides)
  {
    var base := AfterAll(registered, defaults, overrides);
    var p := VisitLast(overrides, k);
    var q := VisitLast(overrides, k');
    VersionLoopOk(registered, overrides, o1, base);
    VersionLoopOk(registered, overrides, p, base);
    VersionLoopOk(registered, overrides, q, base);
    VersionLoopResult(registered, overrides, p, base);
    VersionLoopResult(registered, overrides, q, base);
    var c, d := VersionLoop(registered, overrides, p, base).value, VersionLoop(registered, overrides, q, base).value;
    assert VersionWritten(overrides, p, base, c, gv) && VersionWritten(overrides, q, base, d, gv);
    ResourceLoopOk(registered, overrides, o2, c);
    ResourceLoopOk(registered, overrides, o2, d);
    assert Merge(registered, defaults, overrides, p, o2).Ok? ==>
        Merge(registered, defaults, overrides, p, o2) != Merge(registered, defaults, overrides, q, o2);
  }

  lemma {:induction false} ResourceConflictShows(
    registered: seq<GroupVersion>, defaults: Configs, overrides: Overrides, o1: seq<string>, o2: seq<string>,
    gv: GroupVersion, r: string, k: string, k': string)
    requires IsOrder(overrides, o1) && IsOrder(overrides, o2) && Merge(registered, defaults, overrides, o1, o2).Ok?
    requires ResourceConflict(overrides, gv, r, k, k')
    ensures !OrderFree(registered, defaults, overrides)
  {
    var mid := VersionLoop(registered, overrides, o1, AfterAll(registered, defaults, overrides)).value;
    var p := VisitLast(overrides, k);
    var q := VisitLast(overrides, k');
    ResourceLoopOk(registered, overrides, o2, mid);
    ResourceLoopOk(registered, overrides, p, mid);
    ResourceLoopOk(registered, overrides, q, mid);
    var c, d := ResourceLoop(registered, overrides, p, mid).value, ResourceLoop(registered, overrides, q, mid).value;
    assert ResourceWritten(overrides, p, mid, c, gv, r) && ResourceWritten(overrides, q, mid, d, gv, r);
    assert c != d;
    assert Merge(registered, defaults, overrides, o1, p) != Merge(registered, defaults, overrides, o1, q);
  }

  /** As soon as one order is accepted: all orders agree exactly when no two keys contradict each other. */
  lemma {:induction false} OrderFreeIffNoConflict(
    registered: seq<GroupVersion>, defaults: Configs, overrides: Overrides, o1: seq<string>, o2: seq<string>)
    requires IsOrder(overrides, o1) && IsOrder(overrides, o2) && Merge(registered, defaults, overrides, o1, o2).Ok?
    ensures OrderFree(registered, defaults, overrides) <==> !Conflict(overrides)
  {
    if !Conflict(overrides) {
      forall a1, a2, b1, b2 |
        IsOrder(overrides, a1) && IsOrder(overrides, a2) && IsOrder(overrides, b1) && IsOrder(overrides, b2)
        ensures Merge(registered, defaults, overrides, a1, a2) == Merge(registered, defaults, overrides, b1, b2)
      {
        NoConflictSameResult(registered, defaults, overrides, a1, a2, b1, b2);
      }
    } else if gv, k, k' :| VersionConflict(overrides, gv, k, k') {
      VersionConflictShows(registered, defaults, overrides, o1, o2, gv, k, k');
    } else {
      var gv, r, k, k' :| ResourceConflict(overrides, gv, r, k, k');
      ResourceConflictShows(registered, defaults, overrides, o1, o2, gv, r, k, k');
    }
  }

  // ----- which keys can contradict each other -----

  lemma {:induction false} TwoParts(a: string, b: string)
    requires '/' !in a && '/' !in b
    ensures Split(a + "/" + b, "/") == [a, b]
  {
    SplitFirstChar(a, '/', b);
    NoCharSplit(b, '/');
  }

  lemma {:induction false} ParseTwoParts(group: string, version: string)
    requires '/' !in group && '/' !in version
    ensures ParseGroupVersion(group + "/" + version) == Ok(GroupVersion(group, version))
  {
    var s := group + "/" + version;
    TwoParts(group, version);
    assert s[|group|] == '/';
    if s == "/" {
      assert |group| + |version| == 0;
    }
  }

  lemma {:induction false} LegacySpelling(group: string, version: string)
    requires '/' !in group && '/' !in version
    ensures group + "/" + version == "api/v1" <==> group == "api" && version == "v1"
  {
    assert "api" + "/" + "v1" == "api/v1";
    TwoParts(group, version);
    TwoParts("api", "v1");
  }

  /** What the first two parts of a key name: the legacy spelling api/v1 means version v1 of the empty group. */
  function Named(group: string, version: string): GroupVersion {
    if group == "api" && version == "v1" then GroupVersion("", "v1") else GroupVersion(group, version)
  }

  lemma {:induction false} GroupVersionOfParts(tokens: seq<string>)
    requires |tokens| >= 2 && '/' !in tokens[0] && '/' !in tokens[1]
    ensures GroupVersionOf(tokens) == Ok(Named(tokens[0], tokens[1]))
  {
    LegacySpelling(tokens[0], tokens[1]);
    ParseTwoParts(tokens[0], tokens[1]);
    NoCharSplit("v1", '/');
  }

  ghost predicate SameTarget(k: string, k': string) {
    || (VersionKey(k).Some? && VersionKey(k) == VersionKey(k'))
    || (ResourceKey(k).Some? && ResourceKey(k) == ResourceKey(k'))
  }

  ghost predicate LegacyParts(t: seq<string>, t': seq<string>) {
    && |t| == |t'| && 2 <= |t| && t[1] == t'[1] == "v1" && t[2..] == t'[2..]
    && ((t[0] == "api" && t'[0] == "") || (t[0] == "" && t'[0] == "api"))
  }

  ghost predicate LegacyPair(k: string, k': string) {
    LegacyParts(Split(k, "/"), Split(k', "/"))
  }

  lemma {:induction false} OnlyLegacyPartsCollide(t: seq<string>, t': seq<string>)
    requires |t| == |t'| && 2 <= |t| && t != t' && t[2..] == t'[2..]
    requires Named(t[0], t[1]) == Named(t'[0], t'[1])
    ensures LegacyParts(t, t')
  {
    assert t == [t[0], t[1]] + t[2..] && t' == [t'[0], t'[1]] + t'[2..];
  }

  lemma {:induction false} KeyParts(k: string)
    ensures VersionKey(k).Some? ==>
              |Split(k, "/")| == 2 && VersionKey(k) == Some(Ok(Named(Split(k, "/")[0], Split(k, "/")[1])))
    ensures ResourceKey(k).Some? ==>
              |Split(k, "/")| == 3
              && ResourceKey(k) == Some(Ok((Named(Split(k, "/")[0], Split(k, "/")[1]), Split(k, "/")[2])))
  {
    var t := Split(k, "/");
    PartsHaveNoSep(k, '/');
    if |t| >= 2 {
      GroupVersionOfParts(t);
    }
  }

  /** Two different keys for one target are api/v1 and /v1, or api/v1/r and /v1/r. */
  lemma {:induction false} OnlyLegacyKeysCollide(k: string, k': string)
    requires k != k' && SameTarget(k, k')
    ensures LegacyPair(k, k')
  {
    var t, t' := Split(k, "/"), Split(k', "/");
    KeyParts(k);
    KeyParts(k');
    assert t != t' by {
      JoinSplit(k, "/");
      JoinSplit(k', "/");
    }
    if |t| == 2 {
      assert t[2..] == [] == t'[2..];
    } else {
      assert t[2..] == [t[2]] == t'[2..];
    }
    OnlyLegacyPartsCollide(t, t');
  }

  /** So an override map that spells the legacy version in one way only has no conflict. */
  lemma {:induction false} OneSpellingNoConflict(overrides: Overrides)
    requires forall k, k' :: k in overrides && k' in overrides ==> !LegacyPair(k, k')
    ensures !Conflict(overrides)
  {
    forall gv, k, k' ensures !VersionConflict(overrides, gv, k, k') {
      if VersionConflict(overrides, gv, k, k') {
        OnlyLegacyKeysCollide(k, k');
        assert false;
      }
    }
    forall gv, r, k, k' ensures !ResourceConflict(overrides, gv, r, k, k') {
      if ResourceConflict(overrides, gv, r, k, k') {
        OnlyLegacyKeysCollide(k, k');
        assert false;
      }
    }
  }

  lemma {:induction false} BothNameV1()
    ensures VersionKey("api/v1") == Some(Ok(GroupVersion("", "v1")))
    ensures VersionKey("/v1") == Some(Ok(GroupVersion("", "v1")))
    ensures ResourceKey("api/v1").None? && ResourceKey("/v1").None?
  {
    assert "api" + "/" + "v1" == "api/v1" && "" + "/" + "v1" == "/v1";
    TwoParts("api", "v1");
    TwoParts("", "v1");
    GroupVersionOfParts(["api", "v1"]);
    GroupVersionOfParts(["", "v1"]);
  }

  /** Two keys for one registered version, one on and one off, and no others: the answer depends on the order. */
  lemma {:induction false} TwoKeysDependOnOrder(defaults: Configs, overrides: Overrides, gv: GroupVersion, k: string, k': string)
    requires overrides.Keys == {k, k'} && SaysOn(overrides[k]) && SaysOff(overrides[k'])
    requires VersionKey(k) == Some(Ok(gv)) && VersionKey(k') == Some(Ok(gv))
    requires ResourceKey(k).None? && ResourceKey(k').None?
    ensures !OrderFree([gv], defaults, overrides)
  {
    TextsAreValues(overrides, k);
    TextsAreValues(overrides, k');
    assert VersionConflict(overrides, gv, k, k');
    var o := AnyOrder(overrides.Keys);
    var base := AfterAll([gv], defaults, overrides);
    VersionLoopOk([gv], overrides, o, base);
    ResourceLoopOk([gv], overrides, o, VersionLoop([gv], overrides, o, base).value);
    VersionConflictShows([gv], defaults, overrides, o, o, gv, k, k');
  }

  /** Both spellings of v1, one on and one off: the answer is whichever the loop visits last. */
  lemma {:induction false} BothSpellingsDependOnOrder(defaults: Configs, overrides: Overrides)
    requires overrides.Keys == {"api/v1", "/v1"}
    requires SaysOn(overrides["api/v1"]) && SaysOff(overrides["/v1"])
    ensures !OrderFree([GroupVersion("", "v1")], defaults, overrides)
  {
    BothNameV1();
    TwoKeysDependOnOrder(defaults, overrides, GroupVersion("", "v1"), "api/v1", "/v1");
  }

  // ----- the merge in place -----

  method ApplyVersionKey(registered: seq<GroupVersion>, config: Config, overrides: Overrides, key: string) returns (ok: bool)
    modifies config
    ensures ok == VersionStep(registered, overrides, key, old(config.configs)).Ok?
    ensures ok ==> config.configs == VersionStep(registered, overrides, key, old(config.configs)).value
  {
    if key == "api/all" || key == "api/legacy" {
      return true;
    }
    var tokens := Split(key, "/");
    if |tokens| != 2 {
      return true;
    }
    var gv := GroupVersionOf(tokens);
    if gv.Err? || gv.value !in registered {
      return false;
    }
    var on := ConfigValue(overrides, key);
    if on.Err? {
      return false;
    }
    if on.value {
      config.EnableVersions([gv.value]);
    } else {
      config.DisableVersions([gv.value]);
    }
    return true;
  }

  method ApplyResourceKey(registered: seq<GroupVersion>, config: Config, overrides: Overrides, key: string) returns (ok: bool)
    modifies config
    ensures ok == ResourceStep(registered, overrides, key, old(config.configs)).Ok?
    ensures ok ==> config.configs == ResourceStep(registered, overrides, key, old(config.configs)).value
  {
    var tokens := Split(key, "/");
    if |tokens| != 3 {
      return true;
    }
    var gv := GroupVersionOf(tokens);
    if gv.Err? || gv.value !in registered {
      return false;
    }
    if !AnyResourcesForVersionEnabled(config.configs, gv.value) {
      return false;
    }
    var on := ConfigValue(overrides, key);
    if on.Err? {
      return false;
    }
    if on.value {
      config.EnableResources([(gv.value, tokens[2])]);
    } else {
      config.DisableResources([(gv.value, tokens[2])]);
    }
    return true;
  }

  ghost predicate Visited(overrides: Overrides, done: seq<string>, todo: set<string>) {
    Distinct(done) && forall k :: k in overrides <==> k in done || k in todo
  }

  method VersionPass(registered: seq<GroupVersion>, config: Config, overrides: Overrides) returns (ok: bool, ghost order: seq<string>)
    modifies config
    ensures IsOrder(overrides, order)
    ensures ok == VersionLoop(registered, overrides, order, old(config.configs)).Ok?
    ensures ok ==> config.configs == VersionLoop(registered, overrides, order, old(config.configs)).value
  {
    var todo := overrides.Keys;
    order := [];
    while todo != {}
      invariant Visited(overrides, order, todo) && forall k :: k in order ==> k !in todo
      invariant VersionLoop(registered, overrides, order, old(config.configs)) == Ok(config.configs)
      decreases todo
    {
      var key :| key in todo;
      ok := ApplyVersionKey(registered, config, overrides, key);
      if !ok {
        order := AnyOrder(overrides.Keys);
        VersionLoopOk(registered, overrides, order, old(config.configs));
        return;
      }
      todo := todo - {key};
      assert (order + [key])[..|order|] == order;
      order := order + [key];
    }
    ok := true;
  }

  method ResourcePass(registered: seq<GroupVersion>, config: Config, overrides: Overrides) returns (ok: bool, ghost order: seq<string>)
    modifies config
    ensures IsOrder(overrides, order)
    ensures ok == ResourceLoop(registered, overrides, order, old(config.configs)).Ok?
    ensures ok ==> config.configs == ResourceLoop(registered, overrides, order, old(config.configs)).value
  {
    var todo := overrides.Keys;
    order := [];
    while todo != {}
      invariant Visited(overrides, order, todo) && forall k :: k in order ==> k !in todo
      invariant ResourceLoop(registered, overrides, order, old(config.configs)) == Ok(config.configs)
      decreases todo
    {
      var key :| key in todo;
      ok := ApplyResourceKey(registered, config, overrides, key);
      assert (order + [key])[..|order|] == order;
      if !ok {
        ResourceLoopOk(registered, overrides, order + [key], old(config.configs));
        order := AnyOrder(overrides.Keys);
        ResourceLoopOk(registered, overrides, order, old(config.configs));
        return;
      }
      todo := todo - {key};
      order := order + [key];
    }
    ok := true;
  }

  /** mergeAPIResourceConfigs: for some pair of orders it does what Merge says. */
  method MergeAPIResourceConfigs(registered: seq<GroupVersion>, config: Config, overrides: Overrides)
    returns (ok: bool, ghost o1: seq<string>, ghost o2: seq<string>)
    modifies config
    ensures IsOrder(overrides, o1) && IsOrder(overrides, o2)
    ensures ok == Merge(registered, old(config.configs), overrides, o1, o2).Ok?
    ensures ok ==> config.configs == Merge(registered, old(config.configs), overrides, o1, o2).value
    ensures !Conflict(overrides) ==> (ok <==> Accepted(registered, old(config.configs), overrides))
    ensures !Conflict(overrides) && ok ==>
              forall gv, r :: ResourceEnabled(config.configs, gv, r) <==>
                              ResourceOn(registered, old(config.configs), overrides, gv, r)
  {
    ghost var defaults := config.configs;
    if "api/all" in overrides {
      if overrides["api/all"] == "false" {
        config.DisableVersions(registered);
      } else if overrides["api/all"] == "true" {
        config.EnableVersions(registered);
      }
    }
    ok, o1 := VersionPass(registered, config, overrides);
    if !ok {
      o2 := o1;
    } else {
      ok, o2 := ResourcePass(registered, config, overrides);
    }
    if !Conflict(overrides) {
      MergeIsDeclarative(registered, defaults, overrides, o1, o2);
    }
  }
}
