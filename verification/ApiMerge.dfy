/**
 Merging the runtime-config overrides into the default API enablement
 (pkg/genericapiserver/default_storage_factory_builder.go). The overrides are a Go map, so each of the
 two loops may visit them in any order; Merge takes the two orders as arguments.
 */
module ApiMerge {
  import opened Permutations
  import opened Strings
  import opened Wrappers
  import opened ResourceConfig

  type Overrides = map<string, string>

  // ----- reading keys and values -----

  /** schema.ParseGroupVersion. */
  function ParseGroupVersion(s: string): Result<GroupVersion> {
    var parts := Split(s, "/");
    if s == "" || s == "/" then Ok(GroupVersion("", ""))
    else if |parts| == 1 then Ok(GroupVersion("", s))
    else if |parts| == 2 then Ok(GroupVersion(parts[0], parts[1]))
    else Err
  }

  function GroupVersionOf(tokens: seq<string>): Result<GroupVersion>
    requires |tokens| >= 2
  {
    var s := tokens[0] + "/" + tokens[1];
    ParseGroupVersion(if s == "api/v1" then "v1" else s)
  }

  /** The group version that a two-part key switches, if it is such a key. */
  function VersionKey(key: string): Option<Result<GroupVersion>> {
    var tokens := Split(key, "/");
    if key == "api/all" || key == "api/legacy" || |tokens| != 2 then None
    else Some(GroupVersionOf(tokens))
  }

  /** The resource that a three-part key switches, if it is such a key. */
  function ResourceKey(key: string): Option<Result<(GroupVersion, string)>> {
    var tokens := Split(key, "/");
    if |tokens| != 3 then None
    else
      match GroupVersionOf(tokens)
      case Ok(gv) => Some(Ok((gv, tokens[2])))
      case Err => Some(Err)
  }

  /** strconv.ParseBool. */
  function ParseBool(s: string): Result<bool> {
    if s in ["1", "t", "T", "TRUE", "true", "True"] then Ok(true)
    else if s in ["0", "f", "F", "FALSE", "false", "False"] then Ok(false)
    else Err
  }

  /** getRuntimeConfigValue with the default false: an empty value means true. */
  function ConfigValue(overrides: Overrides, key: string): Result<bool> {
    if key !in overrides then Ok(false)
    else if overrides[key] == "" then Ok(true)
    else ParseBool(overrides[key])
  }

  /** Nothing after the key, or one of the spellings of true. */
  predicate SaysOn(text: string) {
    text == "" || text == "1" || text == "t" || text == "T" || text == "true" || text == "True" || text == "TRUE"
  }

  predicate SaysOff(text: string) {
    text == "0" || text == "f" || text == "F" || text == "false" || text == "False" || text == "FALSE"
  }

  lemma {:induction false} TextsAreValues(overrides: Overrides, key: string)
    requires key in overrides
    ensures ConfigValue(overrides, key) == Ok(true) <==> SaysOn(overrides[key])
    ensures ConfigValue(overrides, key) == Ok(false) <==> SaysOff(overrides[key])
  {
  }

  // ----- the merge -----

  function AfterAll(registered: seq<GroupVersion>, c: Configs, overrides: Overrides): Configs {
    if "api/all" in overrides && overrides["api/all"] == "false" then SetVersions(c, registered, false)
    else if "api/all" in overrides && overrides["api/all"] == "true" then SetVersions(c, registered, true)
    else c
  }

  predicate VersionKeyOk(registered: seq<GroupVersion>, overrides: Overrides, key: string) {
    match VersionKey(key)
    case None => true
    case Some(Err) => false
    case Some(Ok(gv)) => gv in registered && ConfigValue(overrides, key).Ok?
  }

  function VersionStep(registered: seq<GroupVersion>, overrides: Overrides, key: string, c: Configs): Result<Configs> {
    if !VersionKeyOk(registered, overrides, key) then Err
    else
      match VersionKey(key)
      case None => Ok(c)
      case Some(g) => Ok(SetVersion(c, g.value, ConfigValue(overrides, key).value))
  }

  /** The first loop over the keys in the given order; it stops at the first bad key. */
  function VersionLoop(registered: seq<GroupVersion>, overrides: Overrides, order: seq<string>, c: Configs): Result<Configs> {
    if |order| == 0 then Ok(c)
    else
      match VersionLoop(registered, overrides, order[..|order| - 1], c)
      case Err => Err
      case Ok(c') => VersionStep(registered, overrides, order[|order| - 1], c')
  }

  predicate ResourceKeyOk(registered: seq<GroupVersion>, overrides: Overrides, c: Configs, key: string) {
    match ResourceKey(key)
    case None => true
    case Some(Err) => false
    case Some(Ok(g)) =>
      g.0 in registered && AnyResourcesForVersionEnabled(c, g.0) && ConfigValue(overrides, key).Ok?
  }

  function ResourceStep(registered: seq<GroupVersion>, overrides: Overrides, key: string, c: Configs): Result<Configs> {
    if !ResourceKeyOk(registered, overrides, c, key) then Err
    else
      match ResourceKey(key)
      case None => Ok(c)
      case Some(g) => Ok(SetResource(c, g.value.0, g.value.1, ConfigValue(overrides, key).value))
  }

  /** The second loop. */
  function ResourceLoop(registered: seq<GroupVersion>, overrides: Overrides, order: seq<string>, c: Configs): Result<Configs> {
    if |order| == 0 then Ok(c)
    else
      match ResourceLoop(registered, overrides, order[..|order| - 1], c)
      case Err => Err
      case Ok(c') => ResourceStep(registered, overrides, order[|order| - 1], c')
  }

  function Merge(
    registered: seq<GroupVersion>, defaults: Configs, overrides: Overrides, o1: seq<string>, o2: seq<string>): Result<Configs>
  {
    match VersionLoop(registered, overrides, o1, AfterAll(registered, defaults, overrides))
    case Err => Err
    case Ok(c) => ResourceLoop(registered, overrides, o2, c)
  }

  ghost predicate IsOrder(overrides: Overrides, order: seq<string>) {
    Distinct(order) && forall k :: k in order <==> k in overrides
  }

  // ----- last writer wins -----

  function VersionWrite(overrides: Overrides, key: string, gv: GroupVersion): Option<bool> {
    match (VersionKey(key), ConfigValue(overrides, key))
    case (Some(Ok(g)), Ok(b)) => if g == gv then Some(b) else None
    case (_, _) => None
  }

  function ResourceWrite(overrides: Overrides, key: string, gv: GroupVersion, r: string): Option<bool> {
    match (ResourceKey(key), ConfigValue(overrides, key))
    case (Some(Ok(g)), Ok(b)) => if g == (gv, r) then Some(b) else None
    case (_, _) => None
  }

  /** What the last key of the order that switches gv says. */
  function LastVersion(overrides: Overrides, order: seq<string>, gv: GroupVersion): Option<bool> {
    if |order| == 0 then None
    else
      var last := VersionWrite(overrides, order[|order| - 1], gv);
      if last.Some? then last else LastVersion(overrides, order[..|order| - 1], gv)
  }

  function LastResource(overrides: Overrides, order: seq<string>, gv: GroupVersion, r: string): Option<bool> {
    if |order| == 0 then None
    else
      var last := ResourceWrite(overrides, order[|order| - 1], gv, r);
      if last.Some? then last else LastResource(overrides, order[..|order| - 1], gv, r)
  }

  /** Some key of the order switches the resource on. */
  ghost predicate SwitchedOn(overrides: Overrides, order: seq<string>, gv: GroupVersion, r: string) {
    exists k :: k in order && ResourceWrite(overrides, k, gv, r) == Some(true)
  }

  lemma {:induction false} VersionLoopOk(registered: seq<GroupVersion>, overrides: Overrides, order: seq<string>, c: Configs)
    ensures VersionLoop(registered, overrides, order, c).Ok? <==>
              forall k :: k in order ==> VersionKeyOk(registered, overrides, k)
  {
    if |order| > 0 {
      var init, k := order[..|order| - 1], order[|order| - 1];
      assert order == init + [k];
      VersionLoopOk(registered, overrides, init, c);
    }
  }

  ghost predicate VersionsWritten(overrides: Overrides, order: seq<string>, c: Configs, c': Configs) {
    forall gv :: VersionWritten(overrides, order, c, c', gv)
  }

  ghost predicate VersionWritten(overrides: Overrides, order: seq<string>, c: Configs, c': Configs, gv: GroupVersion) {
    var last := LastVersion(overrides, order, gv);
    && (gv in c' <==> gv in c || last.Some?)
    && Entry(c', gv) == if last.Some? then Entry(c, gv).(enable := last.value) else Entry(c, gv)
  }

  /** After the first loop each version's switch is what the last key for it said; nothing else moved. */
  lemma {:induction false} VersionLoopResult(registered: seq<GroupVersion>, overrides: Overrides, order: seq<string>, c: Configs)
    requires VersionLoop(registered, overrides, order, c).Ok?
    ensures VersionsWritten(overrides, order, c, VersionLoop(registered, overrides, order, c).value)
  {
    if |order| > 0 {
      var init, k := order[..|order| - 1], order[|order| - 1];
      VersionLoopResult(registered, overrides, init, c);
      var mid, c' := VersionLoop(registered, overrides, init, c).value, VersionLoop(registered, overrides, order, c).value;
      forall gv ensures VersionWritten(overrides, order, c, c', gv) {
        assert VersionWritten(overrides, init, c, mid, gv);
      }
    }
  }

  ghost predicate ResourceWritten(overrides: Overrides, order: seq<string>, c: Configs, c': Configs, gv: GroupVersion, r: string) {
    var last := LastResource(overrides, order, gv, r);
    && (r in Entry(c', gv).enabled <==> r in Entry(c, gv).enabled || SwitchedOn(overrides, order, gv, r))
    && (r in Entry(c', gv).disabled <==> if last.Some? then !last.value else r in Entry(c, gv).disabled)
  }

  ghost predicate ResourcesWritten(overrides: Overrides, order: seq<string>, c: Configs, c': Configs) {
    && c'.Keys == c.Keys
    && (forall gv :: Entry(c', gv).enable == Entry(c, gv).enable)
    && (forall gv, r :: ResourceWritten(overrides, order, c, c', gv, r))
  }

  lemma {:induction false} ResourceLoopOk(registered: seq<GroupVersion>, overrides: Overrides, order: seq<string>, c: Configs)
    ensures ResourceLoop(registered, overrides, order, c).Ok? <==>
              forall k :: k in order ==> ResourceKeyOk(registered, overrides, c, k)
    ensures ResourceLoop(registered, overrides, order, c).Ok? ==>
              ResourcesWritten(overrides, order, c, ResourceLoop(registered, overrides, order, c).value)
  {
    if |order| > 0 {
      var init, k := order[..|order| - 1], order[|order| - 1];
      assert order == init + [k];
      ResourceLoopOk(registered, overrides, init, c);
      if ResourceLoop(registered, overrides, init, c).Ok? {
        var mid := ResourceLoop(registered, overrides, init, c).value;
        assert forall gv :: AnyResourcesForVersionEnabled(mid, gv) == AnyResourcesForVersionEnabled(c, gv) by {
          forall gv ensures AnyResourcesForVersionEnabled(mid, gv) == AnyResourcesForVersionEnabled(c, gv) {
            assert Entry(mid, gv).enable == Entry(c, gv).enable;
          }
        }
        assert ResourceKeyOk(registered, overrides, mid, k) == ResourceKeyOk(registered, overrides, c, k) by {
          match ResourceKey(k) {
            case Some(Ok(g)) => assert AnyResourcesForVersionEnabled(mid, g.0) == AnyResourcesForVersionEnabled(c, g.0);
            case _ =>
          }
        }
        if ResourceKeyOk(registered, overrides, mid, k) {
          ResourceStepWrites(registered, overrides, init, k, c, mid);
        }
      }
    }
  }

  lemma {:induction false} ResourceStepWrites(
    registered: seq<GroupVersion>, overrides: Overrides, init: seq<string>, k: string, c: Configs, mid: Configs)
    requires ResourcesWritten(overrides, init, c, mid) && ResourceKeyOk(registered, overrides, mid, k)
    ensures ResourcesWritten(overrides, init + [k], c, ResourceStep(registered, overrides, k, mid).value)
  {
    var order, c' := init + [k], ResourceStep(registered, overrides, k, mid).value;
    assert order[..|order| - 1] == init;
    forall gv ensures Entry(c', gv).enable == Entry(c, gv).enable {
      assert Entry(mid, gv).enable == Entry(c, gv).enable;
    }
    forall gv, r ensures ResourceWritten(overrides, order, c, c', gv, r) {
      assert ResourceWritten(overrides, init, c, mid, gv, r);
      assert SwitchedOn(overrides, order, gv, r) <==>
          SwitchedOn(overrides, init, gv, r) || ResourceWrite(overrides, k, gv, r) == Some(true) by {
        if ResourceWrite(overrides, k, gv, r) == Some(true) {
          assert k in order;
        }
      }
    }
  }

  // ----- conflicting keys -----

  ghost predicate VersionConflict(overrides: Overrides, gv: GroupVersion, k: string, k': string) {
    && k in overrides && k' in overrides
    && VersionWrite(overrides, k, gv) == Some(true) && VersionWrite(overrides, k', gv) == Some(false)
  }

  ghost predicate ResourceConflict(overrides: Overrides, gv: GroupVersion, r: string, k: string, k': string) {
    && k in overrides && k' in overrides
    && ResourceWrite(overrides, k, gv, r) == Some(true) && ResourceWrite(overrides, k', gv, r) == Some(false)
  }

  /** Two keys name the same version, or the same resource, and say different things about it. */
  ghost predicate Conflict(overrides: Overrides) {
    || (exists gv, k, k' :: VersionConflict(overrides, gv, k, k'))
    || (exists gv, r, k, k' :: ResourceConflict(overrides, gv, r, k, k'))
  }

  /** What the overrides say about a version, if they do not contradict themselves. */
  ghost function SaidOfVersion(overrides: Overrides, gv: GroupVersion): Option<bool> {
    if exists k :: k in overrides && VersionWrite(overrides, k, gv) == Some(true) then Some(true)
    else if exists k :: k in overrides && VersionWrite(overrides, k, gv) == Some(false) then Some(false)
    else None
  }

  ghost function SaidOfResource(overrides: Overrides, gv: GroupVersion, r: string): Option<bool> {
    if exists k :: k in overrides && ResourceWrite(overrides, k, gv, r) == Some(true) then Some(true)
    else if exists k :: k in overrides && ResourceWrite(overrides, k, gv, r) == Some(false) then Some(false)
    else None
  }

  /** The last word is some key's word, and there is one as soon as any key has one. */
  lemma {:induction false} LastVersionIsSaid(overrides: Overrides, order: seq<string>, gv: GroupVersion)
    ensures LastVersion(overrides, order, gv).None? ==> forall k :: k in order ==> VersionWrite(overrides, k, gv).None?
    ensures LastVersion(overrides, order, gv).Some? ==>
              exists k :: k in order && VersionWrite(overrides, k, gv) == LastVersion(overrides, order, gv)
  {
    if |order| > 0 {
      var init, k := order[..|order| - 1], order[|order| - 1];
      assert order == init + [k];
      LastVersionIsSaid(overrides, init, gv);
      if VersionWrite(overrides, k, gv).Some? {
        assert k in order;
      } else if LastVersion(overrides, init, gv).Some? {
        var j :| j in init && VersionWrite(overrides, j, gv) == LastVersion(overrides, init, gv);
        assert j in order;
      }
    }
  }

  lemma {:induction false} LastResourceIsSaid(overrides: Overrides, order: seq<string>, gv: GroupVersion, r: string)
    ensures LastResource(overrides, order, gv, r).None? ==> forall k :: k in order ==> ResourceWrite(overrides, k, gv, r).None?
    ensures LastResource(overrides, order, gv, r).Some? ==>
              exists k :: k in order && ResourceWrite(overrides, k, gv, r) == LastResource(overrides, order, gv, r)
  {
    if |order| > 0 {
      var init, k := order[..|order| - 1], order[|order| - 1];
      assert order == init + [k];
      LastResourceIsSaid(overrides, init, gv, r);
      if ResourceWrite(overrides, k, gv, r).Some? {
        assert k in order;
      } else if LastResource(overrides, init, gv, r).Some? {
        var j :| j in init && ResourceWrite(overrides, j, gv, r) == LastResource(overrides, init, gv, r);
        assert j in order;
      }
    }
  }

  lemma {:induction false} LastVersionAgrees(overrides: Overrides, order: seq<string>, gv: GroupVersion)
    requires !Conflict(overrides) && IsOrder(overrides, order)
    ensures LastVersion(overrides, order, gv) == SaidOfVersion(overrides, gv)
  {
    LastVersionIsSaid(overrides, order, gv);
    if LastVersion(overrides, order, gv) == Some(false) {
      var k' :| k' in order && VersionWrite(overrides, k', gv) == Some(false);
      forall k | k in overrides ensures VersionWrite(overrides, k, gv) != Some(true) {
        assert !VersionConflict(overrides, gv, k, k');
      }
    }
  }

  lemma {:induction false} LastResourceAgrees(overrides: Overrides, order: seq<string>, gv: GroupVersion, r: string)
    requires !Conflict(overrides) && IsOrder(overrides, order)
    ensures LastResource(overrides, order, gv, r) == SaidOfResource(overrides, gv, r)
    ensures SwitchedOn(overrides, order, gv, r) <==> SaidOfResource(overrides, gv, r) == Some(true)
  {
    LastResourceIsSaid(overrides, order, gv, r);
    if LastResource(overrides, order, gv, r) == Some(false) {
      var k' :| k' in order && ResourceWrite(overrides, k', gv, r) == Some(false);
      forall k | k in overrides ensures ResourceWrite(overrides, k, gv, r) != Some(true) {
        assert !ResourceConflict(overrides, gv, r, k, k');
      }
    }
  }

  // ----- the declarative answer -----

  ghost predicate KnownVersion(registered: seq<GroupVersion>, defaults: Configs, overrides: Overrides, gv: GroupVersion) {
    gv in AfterAll(registered, defaults, overrides) || SaidOfVersion(overrides, gv).Some?
  }

  /** A key for the version itself beats api/all, which beats the default. */
  ghost predicate VersionOn(registered: seq<GroupVersion>, defaults: Configs, overrides: Overrides, gv: GroupVersion) {
    && KnownVersion(registered, defaults, overrides, gv)
    && match SaidOfVersion(overrides, gv)
       case Some(on) => on
       case None => Entry(AfterAll(registered, defaults, overrides), gv).enable
  }

  /** The merge is accepted: every key is well formed, and resource keys sit under versions that are on. */
  ghost predicate Accepted(registered: seq<GroupVersion>, defaults: Configs, overrides: Overrides) {
    forall k :: k in overrides ==>
      && VersionKeyOk(registered, overrides, k)
      && match ResourceKey(k)
         case None => true
         case Some(Err) => false
         case Some(Ok(g)) =>
           g.0 in registered && VersionOn(registered, defaults, overrides, g.0) && ConfigValue(overrides, k).Ok?
  }

  ghost predicate Allowed(defaults: Configs, overrides: Overrides, gv: GroupVersion, r: string) {
    r in Entry(defaults, gv).enabled || SaidOfResource(overrides, gv, r) == Some(true)
  }

  ghost predicate Denied(defaults: Configs, overrides: Overrides, gv: GroupVersion, r: string) {
    match SaidOfResource(overrides, gv, r)
    case Some(on) => !on
    case None => r in Entry(defaults, gv).disabled
  }

  /** The version is on, the resource is not denied, and it is allowed if any resource of the version is. */
  ghost predicate ResourceOn(
    registered: seq<GroupVersion>, defaults: Configs, overrides: Overrides, gv: GroupVersion, r: string)
  {
    && VersionOn(registered, defaults, overrides, gv)
    && !Denied(defaults, overrides, gv, r)
    && ((exists other :: Allowed(defaults, overrides, gv, other)) ==> Allowed(defaults, overrides, gv, r))
  }

  /** api/all only moves the switch of registered versions. */
  lemma {:induction false} AfterAllKeepsResources(registered: seq<GroupVersion>, defaults: Configs, overrides: Overrides, gv: GroupVersion)
    ensures Entry(AfterAll(registered, defaults, overrides), gv).enabled == Entry(defaults, gv).enabled
    ensures Entry(AfterAll(registered, defaults, overrides), gv).disabled == Entry(defaults, gv).disabled
  {
    SetVersionsPointwise(defaults, registered, false);
    SetVersionsPointwise(defaults, registered, true);
  }

  lemma {:induction false} MergeAccepts(
    registered: seq<GroupVersion>, defaults: Configs, overrides: Overrides, o1: seq<string>, o2: seq<string>)
    requires !Conflict(overrides) && IsOrder(overrides, o1) && IsOrder(overrides, o2)
    ensures Merge(registered, defaults, overrides, o1, o2).Ok? <==> Accepted(registered, defaults, overrides)
  {
    var base := AfterAll(registered, defaults, overrides);
    VersionLoopOk(registered, overrides, o1, base);
    if VersionLoop(registered, overrides, o1, base).Ok? {
      VersionLoopResult(registered, overrides, o1, base);
      var mid := VersionLoop(registered, overrides, o1, base).value;
      ResourceLoopOk(registered, overrides, o2, mid);
      forall gv ensures AnyResourcesForVersionEnabled(mid, gv) == VersionOn(registered, defaults, overrides, gv) {
        assert VersionWritten(overrides, o1, base, mid, gv);
        LastVersionAgrees(overrides, o1, gv);
      }
    }
  }

  /**
   Without conflicting keys the order of iteration does not matter: the merge is accepted exactly when the
   declarative check passes, and then answers every query as the declarative reading does.
   */
  lemma {:induction false} MergeIsDeclarative(
    registered: seq<GroupVersion>, defaults: Configs, overrides: Overrides, o1: seq<string>, o2: seq<string>)
    requires !Conflict(overrides) && IsOrder(overrides, o1) && IsOrder(overrides, o2)
    ensures Merge(registered, defaults, overrides, o1, o2).Ok? <==> Accepted(registered, defaults, overrides)
    ensures Merge(registered, defaults, overrides, o1, o2).Ok? ==>
              forall gv, r :: ResourceEnabled(Merge(registered, defaults, overrides, o1, o2).value, gv, r) <==>
                              ResourceOn(registered, defaults, overrides, gv, r)
  {
    MergeAccepts(registered, defaults, overrides, o1, o2);
    if Merge(registered, defaults, overrides, o1, o2).Ok? {
      forall gv, r
        ensures ResourceEnabled(Merge(registered, defaults, overrides, o1, o2).value, gv, r) <==>
                ResourceOn(registered, defaults, overrides, gv, r)
      {
        MergeAnswer(registered, defaults, overrides, o1, o2, gv, r);
      }
    }
  }

  lemma {:induction false} MergeEntry(
    registered: seq<GroupVersion>, defaults: Configs, overrides: Overrides, o1: seq<string>, o2: seq<string>,
    gv: GroupVersion, r: string)
    requires !Conflict(overrides) && IsOrder(overrides, o1) && IsOrder(overrides, o2)
    requires Merge(registered, defaults, overrides, o1, o2).Ok?
    ensures var c := Merge(registered, defaults, overrides, o1, o2).value;
            && (gv in c <==> KnownVersion(registered, defaults, overrides, gv))
            && (gv in c ==> (c[gv].enable <==> VersionOn(registered, defaults, overrides, gv)))
            && (r in Entry(c, gv).enabled <==> Allowed(defaults, overrides, gv, r))
            && (r in Entry(c, gv).disabled <==> Denied(defaults, overrides, gv, r))
  {
    var base := AfterAll(registered, defaults, overrides);
    VersionLoopResult(registered, overrides, o1, base);
    var mid := VersionLoop(registered, overrides, o1, base).value;
    ResourceLoopOk(registered, overrides, o2, mid);
    var c := ResourceLoop(registered, overrides, o2, mid).value;
    assert VersionWritten(overrides, o1, base, mid, gv);
    assert ResourceWritten(overrides, o2, mid, c, gv, r);
    assert Entry(c, gv).enable == Entry(mid, gv).enable;
    LastVersionAgrees(overrides, o1, gv);
    LastResourceAgrees(overrides, o2, gv, r);
    AfterAllKeepsResources(registered, defaults, overrides, gv);
  }

  lemma {:induction false} MergeAnswer(
    registered: seq<GroupVersion>, defaults: Configs, overrides: Overrides, o1: seq<string>, o2: seq<string>,
    gv: GroupVersion, r: string)
    requires !Conflict(overrides) && IsOrder(overrides, o1) && IsOrder(overrides, o2)
    requires Merge(registered, defaults, overrides, o1, o2).Ok?
    ensures ResourceEnabled(Merge(registered, defaults, overrides, o1, o2).value, gv, r) <==>
            ResourceOn(registered, defaults, overrides, gv, r)
  {
    var c := Merge(registered, defaults, overrides, o1, o2).value;
    MergeEntry(registered, defaults, overrides, o1, o2, gv, r);
    forall other ensures other in Entry(c, gv).enabled <==> Allowed(defaults, overrides, gv, other) {
      MergeEntry(registered, defaults, overrides, o1, o2, gv, other);
    }
    if Entry(c, gv).enabled != {} {
      var other :| other in Entry(c, gv).enabled;
      assert Allowed(defaults, overrides, gv, other);
    }
  }
}
