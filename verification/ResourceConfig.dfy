/**
 API enablement (pkg/genericapiserver/resource_config.go): which group versions are on, and which of
 their resources are switched on or off individually.
 */
module ResourceConfig {
  datatype GroupVersion = GroupVersion(group: string, version: string)

  datatype VersionConfig = VersionConfig(enable: bool, disabled: set<string>, enabled: set<string>)

  type Configs = map<GroupVersion, VersionConfig>

  const NewVersionConfig: VersionConfig := VersionConfig(true, {}, {})

  function Entry(c: Configs, gv: GroupVersion): VersionConfig {
    if gv in c then c[gv] else NewVersionConfig
  }

  function SetVersion(c: Configs, gv: GroupVersion, on: bool): Configs {
    c[gv := Entry(c, gv).(enable := on)]
  }

  function SetVersions(c: Configs, gvs: seq<GroupVersion>, on: bool): Configs
    decreases |gvs|
  {
    if |gvs| == 0 then c else SetVersions(SetVersion(c, gvs[0], on), gvs[1..], on)
  }

  /** Enabling also lifts an individual disablement; disabling leaves the enabled set alone. */
  function SetResource(c: Configs, gv: GroupVersion, r: string, on: bool): Configs {
    var e := Entry(c, gv);
    c[gv := if on then e.(enabled := e.enabled + {r}, disabled := e.disabled - {r})
            else e.(disabled := e.disabled + {r})]
  }

  function SetResources(c: Configs, resources: seq<(GroupVersion, string)>, on: bool): Configs {
    if |resources| == 0 then c
    else
      var (gv, r) := resources[|resources| - 1];
      SetResource(SetResources(c, resources[..|resources| - 1], on), gv, r, on)
  }

  predicate AnyResourcesForVersionEnabled(c: Configs, gv: GroupVersion) {
    gv in c && c[gv].enable
  }

  predicate ResourceEnabled(c: Configs, gv: GroupVersion, r: string) {
    && gv in c && c[gv].enable
    && r !in c[gv].disabled
    && (c[gv].enabled != {} ==> r in c[gv].enabled)
  }

  predicate AnyVersionOfResourceEnabled(c: Configs, group: string, r: string) {
    exists gv :: gv in c && gv.group == group && ResourceEnabled(c, gv, r)
  }

  class Config {
    var configs: Configs

    constructor ()
      ensures configs == map[]
    {
      configs := map[];
    }

    method SwitchVersions(gvs: seq<GroupVersion>, on: bool)
      modifies this
      ensures configs == SetVersions(old(configs), gvs, on)
    {
      assert gvs[0..] == gvs;
      for i := 0 to |gvs|
        invariant SetVersions(configs, gvs[i..], on) == SetVersions(old(configs), gvs, on)
      {
        assert gvs[i..][1..] == gvs[i + 1..];
        var gv := gvs[i];
        ghost var before := configs;
        if gv !in configs {
          configs := configs[gv := NewVersionConfig];
        }
        configs := configs[gv := configs[gv].(enable := on)];
        assert configs == SetVersion(before, gv, on);
      }
      assert gvs[|gvs|..] == [];
    }

    method EnableVersions(gvs: seq<GroupVersion>)
      modifies this
      ensures configs == SetVersions(old(configs), gvs, true)
    {
      SwitchVersions(gvs, true);
    }

    method DisableVersions(gvs: seq<GroupVersion>)
      modifies this
      ensures configs == SetVersions(old(configs), gvs, false)
    {
      SwitchVersions(gvs, false);
    }

    method EnableResources(resources: seq<(GroupVersion, string)>)
      modifies this
      ensures configs == SetResources(old(configs), resources, true)
    {
      for i := 0 to |resources|
        invariant configs == SetResources(old(configs), resources[..i], true)
      {
        assert resources[..i + 1][..i] == resources[..i];
        var (gv, r) := resources[i];
        if gv !in configs {
          configs := configs[gv := NewVersionConfig];
        }
        configs := configs[gv := configs[gv].(enabled := configs[gv].enabled + {r})];
        configs := configs[gv := configs[gv].(disabled := configs[gv].disabled - {r})];
      }
      assert resources[..|resources|] == resources;
    }

    method DisableResources(resources: seq<(GroupVersion, string)>)
      modifies this
      ensures configs == SetResources(old(configs), resources, false)
    {
      for i := 0 to |resources|
        invariant configs == SetResources(old(configs), resources[..i], false)
      {
        assert resources[..i + 1][..i] == resources[..i];
        var (gv, r) := resources[i];
        if gv !in configs {
          configs := configs[gv := NewVersionConfig];
        }
        configs := configs[gv := configs[gv].(disabled := configs[gv].disabled + {r})];
      }
      assert resources[..|resources|] == resources;
    }

    /** AnyVersionOfResourceEnabled as the loop over the map, in whatever order it comes. */
    method FindEnabledVersion(group: string, r: string) returns (found: bool)
      ensures found == AnyVersionOfResourceEnabled(configs, group, r)
    {
      var todo := configs.Keys;
      while todo != {}
        invariant todo <= configs.Keys
        invariant forall gv :: gv in configs && gv !in todo ==> gv.group != group || !ResourceEnabled(configs, gv, r)
        decreases todo
      {
        var gv :| gv in todo;
        if gv.group == group && ResourceEnabled(configs, gv, r) {
          return true;
        }
        todo := todo - {gv};
      }
      found := false;
    }
  }

  /** Switching a list of versions touches exactly those versions, whatever their order. */
  lemma {:induction false} SetVersionsPointwise(c: Configs, gvs: seq<GroupVersion>, on: bool)
    ensures SetVersions(c, gvs, on).Keys == c.Keys + set gv | gv in gvs
    ensures forall gv :: gv in SetVersions(c, gvs, on) ==>
              SetVersions(c, gvs, on)[gv] == if gv in gvs then Entry(c, gv).(enable := on) else c[gv]
    decreases |gvs|
  {
    if |gvs| > 0 {
      SetVersionsPointwise(SetVersion(c, gvs[0], on), gvs[1..], on);
      assert gvs == [gvs[0]] + gvs[1..];
    }
  }

  /** Switching a list of resources moves exactly those, whatever the order and repetitions. */
  lemma {:induction false} SetResourcesPointwise(c: Configs, resources: seq<(GroupVersion, string)>, on: bool, gv: GroupVersion, r: string)
    ensures var c' := SetResources(c, resources, on);
            && (gv in c' <==> gv in c || exists x :: (gv, x) in resources)
            && Entry(c', gv).enable == Entry(c, gv).enable
            && (r in Entry(c', gv).enabled <==> r in Entry(c, gv).enabled || (on && (gv, r) in resources))
            && (r in Entry(c', gv).disabled <==> if (gv, r) in resources then !on else r in Entry(c, gv).disabled)
  {
    if |resources| > 0 {
      var init, last := resources[..|resources| - 1], resources[|resources| - 1];
      assert resources == init + [last];
      SetResourcesPointwise(c, init, on, gv, r);
      if last.0 == gv {
        assert (gv, last.1) in resources;
      }
      assert (exists x :: (gv, x) in resources) <==> (exists x :: (gv, x) in init) || last.0 == gv;
    }
  }

  /** A version that becomes known by a switch of one of its resources is on. */
  lemma {:induction false} NewVersionsAreOn(c: Configs, resources: seq<(GroupVersion, string)>, on: bool, gv: GroupVersion, r: string)
    requires gv !in c && (gv, r) in resources
    ensures gv in SetResources(c, resources, on) && SetResources(c, resources, on)[gv].enable
    ensures AnyResourcesForVersionEnabled(SetResources(c, resources, on), gv)
    ensures ResourceEnabled(SetResources(c, resources, on), gv, r) <==> on
  {
    SetResourcesPointwise(c, resources, on, gv, r);
  }
}
