/**
 Where each resource is stored (pkg/genericapiserver/storage_factory.go): overrides set call by call,
 lists of resources that must be stored together, and the configuration handed out for a resource.
 */
module StorageFactory {
  import opened Permutations
  import opened Strings
  import opened Wrappers
  import opened ResourceConfig

  datatype GroupResource = GroupResource(group: string, resource: string)

  type Serializer = nat

  datatype Override = Override(
    etcdLocation: seq<string>, etcdPrefix: string, etcdResourcePrefix: string,
    mediaType: string, serializer: Option<Serializer>, cohabitating: seq<GroupResource>)

  type Overrides = map<GroupResource, Override>

  /** What a codec is assembled from. */
  datatype Codec = Codec(mediaType: string, serializer: Option<Serializer>, storageVersion: GroupVersion, memoryVersion: GroupVersion)

  /** The fields of the storage backend configuration that the factory looks at or changes. */
  datatype Backend = Backend(kind: string, prefix: string, serverList: seq<string>, codec: Option<Codec>)

  /** What the factory is built with and never changes. Encoding lookups and codec assembly may fail. */
  datatype Setup = Setup(
    storage: Backend, defaultMediaType: string, defaultSerializer: Option<Serializer>,
    defaultPrefixes: map<GroupResource, string>, api: Configs,
    storageEncoding: GroupResource -> Result<GroupVersion>, memoryEncoding: GroupResource -> Result<GroupVersion>,
    codecOk: (Codec, Backend) -> bool, toLower: string -> string)

  const NoOverride: Override := Override([], "", "", "", None, [])

  /** Reading a missing key of the Go map gives the zero value. */
  function At(ov: Overrides, g: GroupResource): Override {
    if g in ov then ov[g] else NoOverride
  }

  function AllResourcesAlias(g: GroupResource): GroupResource {
    GroupResource(g.group, "*")
  }

  predicate Enabled(setup: Setup, g: GroupResource) {
    AnyVersionOfResourceEnabled(setup.api, g.group, g.resource)
  }

  function FirstEnabled(setup: Setup, list: seq<GroupResource>): Option<GroupResource> {
    if |list| == 0 then None
    else if Enabled(setup, list[0]) then Some(list[0])
    else FirstEnabled(setup, list[1..])
  }

  function Chosen(setup: Setup, list: seq<GroupResource>, g: GroupResource): GroupResource {
    match FirstEnabled(setup, list)
    case Some(chosen) => chosen
    case None => g
  }

  /** getStorageGroupResource. */
  function StorageResource(setup: Setup, ov: Overrides, g: GroupResource): GroupResource {
    Chosen(setup, At(ov, g).cohabitating, g)
  }

  /** The most specific value that is set. */
  function Pick(general: string, group: string, exact: string): string {
    if |exact| > 0 then exact else if |group| > 0 then group else general
  }

  function BackendFor(setup: Setup, group: Override, exact: Override): Backend {
    setup.storage.(
      prefix := Pick(setup.storage.prefix, group.etcdPrefix, exact.etcdPrefix),
      serverList := if |exact.etcdLocation| > 0 then exact.etcdLocation
                    else if |group.etcdLocation| > 0 then group.etcdLocation
                    else setup.storage.serverList)
  }

  function SerializerFor(setup: Setup, group: Override, exact: Override): Option<Serializer> {
    if exact.serializer.Some? then exact.serializer
    else if group.serializer.Some? then group.serializer
    else setup.defaultSerializer
  }

  function ConfigFor(setup: Setup, ov: Overrides, g: GroupResource): Result<Backend> {
    var chosen := StorageResource(setup, ov, g);
    var group, exact := At(ov, AllResourcesAlias(chosen)), At(ov, chosen);
    var backend := BackendFor(setup, group, exact);
    match (setup.storageEncoding(chosen), setup.memoryEncoding(g))
    case (Ok(stored), Ok(memory)) =>
      var codec := Codec(Pick(setup.defaultMediaType, group.mediaType, exact.mediaType),
                         SerializerFor(setup, group, exact), stored, memory);
      if setup.codecOk(codec, backend) then Ok(backend.(codec := Some(codec))) else Err
    case _ => Err
  }

  function PrefixFor(setup: Setup, ov: Overrides, g: GroupResource): string {
    var chosen := StorageResource(setup, ov, g);
    var general := if chosen in setup.defaultPrefixes then setup.defaultPrefixes[chosen] else "";
    var prefix := Pick(general, At(ov, AllResourcesAlias(chosen)).etcdResourcePrefix, At(ov, chosen).etcdResourcePrefix);
    if |prefix| == 0 then setup.toLower(chosen.resource) else prefix
  }

  // ----- calls -----

  datatype Call =
    | SetEtcdLocation(g: GroupResource, location: seq<string>)
    | SetEtcdPrefix(g: GroupResource, prefix: string)
    | SetResourceEtcdPrefix(g: GroupResource, prefix: string)
    | SetSerializer(g: GroupResource, mediaType: string, serializer: Option<Serializer>)
    | AddCohabitating(list: seq<GroupResource>)

  function Link(ov: Overrides, members: seq<GroupResource>, list: seq<GroupResource>): Overrides {
    if |members| == 0 then ov
    else
      var ov' := Link(ov, members[..|members| - 1], list);
      var g := members[|members| - 1];
      ov'[g := At(ov', g).(cohabitating := list)]
  }

  function Apply(ov: Overrides, call: Call): Overrides {
    match call
    case SetEtcdLocation(g, location) => ov[g := At(ov, g).(etcdLocation := location)]
    case SetEtcdPrefix(g, prefix) => ov[g := At(ov, g).(etcdPrefix := prefix)]
    case SetResourceEtcdPrefix(g, prefix) => ov[g := At(ov, g).(etcdResourcePrefix := prefix)]
    case SetSerializer(g, mediaType, serializer) => ov[g := At(ov, g).(mediaType := mediaType, serializer := serializer)]
    case AddCohabitating(list) => Link(ov, list, list)
  }

  function Run(calls: seq<Call>): Overrides {
    if |calls| == 0 then map[] else Apply(Run(calls[..|calls| - 1]), calls[|calls| - 1])
  }

  // ----- the factory -----

  class Factory {
    const setup: Setup
    var overrides: Overrides

    constructor (setup: Setup)
      ensures this.setup == setup && overrides == Run([])
    {
      this.setup := setup;
      overrides := map[];
    }

    method SetEtcdLocation(g: GroupResource, location: seq<string>)
      modifies this
      ensures overrides == Apply(old(overrides), Call.SetEtcdLocation(g, location))
    {
      var o := At(overrides, g);
      o := o.(etcdLocation := location);
      overrides := overrides[g := o];
    }

    method SetEtcdPrefix(g: GroupResource, prefix: string)
      modifies this
      ensures overrides == Apply(old(overrides), Call.SetEtcdPrefix(g, prefix))
    {
      var o := At(overrides, g);
      o := o.(etcdPrefix := prefix);
      overrides := overrides[g := o];
    }

    method SetResourceEtcdPrefix(g: GroupResource, prefix: string)
      modifies this
      ensures overrides == Apply(old(overrides), Call.SetResourceEtcdPrefix(g, prefix))
    {
      var o := At(overrides, g);
      o := o.(etcdResourcePrefix := prefix);
      overrides := overrides[g := o];
    }

    method SetSerializer(g: GroupResource, mediaType: string, serializer: Option<Serializer>)
      modifies this
      ensures overrides == Apply(old(overrides), Call.SetSerializer(g, mediaType, serializer))
    {
      var o := At(overrides, g);
      o := o.(mediaType := mediaType, serializer := serializer);
      overrides := overrides[g := o];
    }

    method AddCohabitatingResources(list: seq<GroupResource>)
      modifies this
      ensures overrides == Apply(old(overrides), AddCohabitating(list))
    {
      for i := 0 to |list|
        invariant overrides == Link(old(overrides), list[..i], list)
      {
        assert list[..i + 1][..i] == list[..i];
        var o := At(overrides, list[i]);
        overrides := overrides[list[i] := o.(cohabitating := list)];
      }
      assert list[..|list|] == list;
    }

    method GetStorageGroupResource(g: GroupResource) returns (chosen: GroupResource)
      ensures chosen == StorageResource(setup, overrides, g)
    {
      var list := At(overrides, g).cohabitating;
      assert list[0..] == list;
      for i := 0 to |list|
        invariant FirstEnabled(setup, list) == FirstEnabled(setup, list[i..])
      {
        assert list[i..][1..] == list[i + 1..];
        if Enabled(setup, list[i]) {
          return list[i];
        }
      }
      return g;
    }

    method NewConfig(g: GroupResource) returns (config: Result<Backend>)
      ensures config == ConfigFor(setup, overrides, g)
    {
      var chosen := GetStorageGroupResource(g);
      var group, exact := At(overrides, AllResourcesAlias(chosen)), At(overrides, chosen);
      var locations := [];
      if |group.etcdLocation| > 0 { locations := group.etcdLocation; }
      if |exact.etcdLocation| > 0 { locations := exact.etcdLocation; }
      var prefix := setup.storage.prefix;
      if |group.etcdPrefix| > 0 { prefix := group.etcdPrefix; }
      if |exact.etcdPrefix| > 0 { prefix := exact.etcdPrefix; }
      var mediaType := setup.defaultMediaType;
      if |group.mediaType| != 0 { mediaType := group.mediaType; }
      if |exact.mediaType| != 0 { mediaType := exact.mediaType; }
      var serializer := setup.defaultSerializer;
      if group.serializer.Some? { serializer := group.serializer; }
      if exact.serializer.Some? { serializer := exact.serializer; }
      var backend := setup.storage.(prefix := prefix);
      if |locations| > 0 { backend := backend.(serverList := locations); }
      var stored := setup.storageEncoding(chosen);
      if stored.Err? { return Err; }
      var memory := setup.memoryEncoding(g);
      if memory.Err? { return Err; }
      var codec := Codec(mediaType, serializer, stored.value, memory.value);
      if !setup.codecOk(codec, backend) { return Err; }
      return Ok(backend.(codec := Some(codec)));
    }

    method ResourcePrefix(g: GroupResource) returns (prefix: string)
      ensures prefix == PrefixFor(setup, overrides, g)
    {
      var chosen := GetStorageGroupResource(g);
      var group, exact := At(overrides, AllResourcesAlias(chosen)), At(overrides, chosen);
      prefix := if chosen in setup.defaultPrefixes then setup.defaultPrefixes[chosen] else "";
      if |group.etcdResourcePrefix| > 0 { prefix := group.etcdResourcePrefix; }
      if |exact.etcdResourcePrefix| > 0 { prefix := exact.etcdResourcePrefix; }
      if |prefix| == 0 { prefix := setup.toLower(chosen.resource); }
    }

    /** All servers any resource may be sent to, sorted and without repetition. */
    method Backends() returns (servers: seq<string>)
      ensures Sorted(servers) && Distinct(servers)
      ensures forall x :: x in servers <==> IsBackend(setup, overrides, x)
      ensures forall g :: ConfigFor(setup, overrides, g).Ok? ==>
                forall x :: x in ConfigFor(setup, overrides, g).value.serverList ==> x in servers
    {
      var found := set x | x in setup.storage.serverList;
      var todo := overrides.Keys;
      while todo != {}
        invariant todo <= overrides.Keys
        invariant forall x :: x in found <==>
          x in setup.storage.serverList || exists g :: g in overrides && g !in todo && x in overrides[g].etcdLocation
        decreases todo
      {
        var g :| g in todo;
        found := found + set x | x in overrides[g].etcdLocation;
        todo := todo - {g};
      }
      servers := ListSorted(found);
    }
  }

  ghost predicate IsBackend(setup: Setup, ov: Overrides, x: string) {
    x in setup.storage.serverList || exists g :: g in ov && x in ov[g].etcdLocation
  }

  // ----- what a sequence of calls leaves behind -----

  /** The list of the last AddCohabitating call that names g. */
  function LastList(calls: seq<Call>, g: GroupResource): seq<GroupResource> {
    if |calls| == 0 then []
    else
      var call := calls[|calls| - 1];
      if call.AddCohabitating? && g in call.list then call.list else LastList(calls[..|calls| - 1], g)
  }

  function LastLocation(calls: seq<Call>, g: GroupResource): seq<string> {
    if |calls| == 0 then []
    else
      var call := calls[|calls| - 1];
      if call.SetEtcdLocation? && call.g == g then call.location else LastLocation(calls[..|calls| - 1], g)
  }

  function LastPrefix(calls: seq<Call>, g: GroupResource): string {
    if |calls| == 0 then ""
    else
      var call := calls[|calls| - 1];
      if call.SetEtcdPrefix? && call.g == g then call.prefix else LastPrefix(calls[..|calls| - 1], g)
  }

  function LastResourcePrefix(calls: seq<Call>, g: GroupResource): string {
    if |calls| == 0 then ""
    else
      var call := calls[|calls| - 1];
      if call.SetResourceEtcdPrefix? && call.g == g then call.prefix else LastResourcePrefix(calls[..|calls| - 1], g)
  }

  function LastSerializer(calls: seq<Call>, g: GroupResource): (string, Option<Serializer>) {
    if |calls| == 0 then ("", None)
    else
      var call := calls[|calls| - 1];
      if call.SetSerializer? && call.g == g then (call.mediaType, call.serializer)
      else LastSerializer(calls[..|calls| - 1], g)
  }

  lemma {:induction false} LinkPointwise(ov: Overrides, members: seq<GroupResource>, list: seq<GroupResource>, g: GroupResource)
    ensures At(Link(ov, members, list), g) ==
            if g in members then At(ov, g).(cohabitating := list) else At(ov, g)
  {
    if |members| > 0 {
      assert members == members[..|members| - 1] + [members[|members| - 1]];
      LinkPointwise(ov, members[..|members| - 1], list, g);
    }
  }

  /** Each setting of a resource is what the last call about exactly that setting said. */
  lemma {:induction false} RunKeepsLastWrites(calls: seq<Call>, g: GroupResource)
    ensures At(Run(calls), g) ==
            Override(LastLocation(calls, g), LastPrefix(calls, g), LastResourcePrefix(calls, g),
                     LastSerializer(calls, g).0, LastSerializer(calls, g).1, LastList(calls, g))
  {
    if |calls| > 0 {
      var init, call := calls[..|calls| - 1], calls[|calls| - 1];
      RunKeepsLastWrites(init, g);
      if call.AddCohabitating? {
        LinkPointwise(Run(init), call.list, call.list, g);
      }
    }
  }

  // ----- which setting counts -----

  /** The order of a linked list is a priority: the first member that is on in some version of its group is chosen. */
  lemma {:induction false} FirstOnWins(setup: Setup, ov: Overrides, g: GroupResource, i: nat)
    requires g in ov && i < |ov[g].cohabitating|
    requires OnSomewhere(setup.api, ov[g].cohabitating[i])
    requires forall j :: 0 <= j < i ==> !OnSomewhere(setup.api, ov[g].cohabitating[j])
    ensures StorageResource(setup, ov, g) == ov[g].cohabitating[i]
  {
    FirstOn(setup, ov[g].cohabitating, i);
  }

  ghost predicate OnSomewhere(api: Configs, g: GroupResource) {
    exists gv :: gv in api && gv.group == g.group && ResourceEnabled(api, gv, g.resource)
  }

  lemma {:induction false} FirstOn(setup: Setup, list: seq<GroupResource>, i: nat)
    requires i < |list| && OnSomewhere(setup.api, list[i])
    requires forall j :: 0 <= j < i ==> !OnSomewhere(setup.api, list[j])
    ensures FirstEnabled(setup, list) == Some(list[i])
  {
    if i > 0 {
      assert !OnSomewhere(setup.api, list[0]);
      forall j | 0 <= j < i - 1 ensures !OnSomewhere(setup.api, list[1..][j]) {
        assert list[1..][j] == list[j + 1];
      }
      FirstOn(setup, list[1..], i - 1);
    }
  }

  /** Of the three, the first that says anything. */
  predicate FirstSaid<T(==)>(v: seq<T>, exact: seq<T>, group: seq<T>, general: seq<T>) {
    && (exact != [] ==> v == exact)
    && (exact == [] && group != [] ==> v == group)
    && (exact == [] && group == [] ==> v == general)
  }

  /**
   After any run of calls: what was last set for the chosen resource itself counts, else what was last set for
   all resources of its group, under the name *, else the default of the factory.
   */
  lemma {:induction false} LastCallsDecide(setup: Setup, calls: seq<Call>, g: GroupResource)
    ensures var exact := StorageResource(setup, Run(calls), g);
            var group := GroupResource(exact.group, "*");
            var config := ConfigFor(setup, Run(calls), g);
            && (config.Ok? ==>
                  var b := config.value;
                  && FirstSaid(b.serverList, LastLocation(calls, exact), LastLocation(calls, group), setup.storage.serverList)
                  && FirstSaid(b.prefix, LastPrefix(calls, exact), LastPrefix(calls, group), setup.storage.prefix)
                  && b.kind == setup.storage.kind && b.codec.Some?
                  && FirstSaid(b.codec.value.mediaType, LastSerializer(calls, exact).0, LastSerializer(calls, group).0, setup.defaultMediaType)
                  && b.codec.value.serializer == (if LastSerializer(calls, exact).1.Some? then LastSerializer(calls, exact).1
                                                  else if LastSerializer(calls, group).1.Some? then LastSerializer(calls, group).1
                                                  else setup.defaultSerializer)
                  && setup.storageEncoding(exact) == Ok(b.codec.value.storageVersion)
                  && setup.memoryEncoding(g) == Ok(b.codec.value.memoryVersion))
  {
    RunKeepsLastWrites(calls, StorageResource(setup, Run(calls), g));
    RunKeepsLastWrites(calls, GroupResource(StorageResource(setup, Run(calls), g).group, "*"));
  }

  /** The same for the key prefix, which falls back to the lower-cased name of the resource. */
  lemma {:induction false} LastCallsDecidePrefix(setup: Setup, calls: seq<Call>, g: GroupResource)
    ensures var exact := StorageResource(setup, Run(calls), g);
            var general := if exact in setup.defaultPrefixes && setup.defaultPrefixes[exact] != ""
                           then setup.defaultPrefixes[exact] else setup.toLower(exact.resource);
            FirstSaid(PrefixFor(setup, Run(calls), g), LastResourcePrefix(calls, exact),
                      LastResourcePrefix(calls, GroupResource(exact.group, "*")), general)
  {
    RunKeepsLastWrites(calls, StorageResource(setup, Run(calls), g));
    RunKeepsLastWrites(calls, GroupResource(StorageResource(setup, Run(calls), g).group, "*"));
  }

  // ----- cohabitation -----

  ghost predicate Overlap(a: seq<GroupResource>, b: seq<GroupResource>) {
    exists g :: g in a && g in b
  }

  /** The list was linked at some point, and every list linked later is the same one or shares no member. */
  ghost predicate Linked(calls: seq<Call>, list: seq<GroupResource>) {
    exists i :: LinkedAt(calls, list, i)
  }

  ghost predicate LinkedAt(calls: seq<Call>, list: seq<GroupResource>, i: nat) {
    && i < |calls| && calls[i] == AddCohabitating(list)
    && forall j :: i < j < |calls| && calls[j].AddCohabitating? ==> calls[j].list == list || !Overlap(calls[j].list, list)
  }

  lemma {:induction false} LinkedSticks(calls: seq<Call>, list: seq<GroupResource>, i: nat, g: GroupResource)
    requires LinkedAt(calls, list, i) && g in list
    ensures LastList(calls, g) == list
  {
    var init, call := calls[..|calls| - 1], calls[|calls| - 1];
    if i < |calls| - 1 {
      assert calls[|calls| - 1].AddCohabitating? ==> calls[|calls| - 1].list == list || !Overlap(calls[|calls| - 1].list, list);
      LinkedSticks(init, list, i, g);
    }
  }

  lemma {:induction false} FirstEnabledFinds(setup: Setup, list: seq<GroupResource>)
    ensures FirstEnabled(setup, list).None? <==> forall g :: g in list ==> !Enabled(setup, g)
  {
    if |list| > 0 {
      assert list == [list[0]] + list[1..];
      FirstEnabledFinds(setup, list[1..]);
    }
  }

  ghost predicate SomeEnabled(setup: Setup, list: seq<GroupResource>) {
    exists g :: g in list && Enabled(setup, g)
  }

  ghost predicate StoredTogether(setup: Setup, ov: Overrides, list: seq<GroupResource>) {
    forall g, h :: g in list && h in list ==> StorageResource(setup, ov, g) == StorageResource(setup, ov, h)
  }

  lemma {:induction false} MemberResolves(setup: Setup, calls: seq<Call>, list: seq<GroupResource>, g: GroupResource)
    requires Linked(calls, list) && g in list
    ensures FirstEnabled(setup, list).Some? <==> SomeEnabled(setup, list)
    ensures StorageResource(setup, Run(calls), g) == Chosen(setup, list, g)
  {
    var i :| LinkedAt(calls, list, i);
    LinkedSticks(calls, list, i, g);
    RunKeepsLastWrites(calls, g);
    FirstEnabledFinds(setup, list);
  }

  /**
   After any run of setters and links: the members of a linked list are stored in one place exactly when one
   of them is enabled, or the list has a single member. With none enabled each is stored as itself.
   */
  lemma {:induction false} StoredTogetherIffSomeEnabled(setup: Setup, calls: seq<Call>, list: seq<GroupResource>)
    requires Linked(calls, list)
    ensures StoredTogether(setup, Run(calls), list) <==>
            SomeEnabled(setup, list) || forall g, h :: g in list && h in list ==> g == h
  {
    forall g | g in list
      ensures FirstEnabled(setup, list).Some? <==> SomeEnabled(setup, list)
      ensures StorageResource(setup, Run(calls), g) == Chosen(setup, list, g)
    {
      MemberResolves(setup, calls, list, g);
    }
  }

  /** Then they share the key prefix, the base prefix, the servers and everything of the codec but the memory version. */
  lemma {:induction false} CohabitantsAgree(setup: Setup, calls: seq<Call>, list: seq<GroupResource>, g: GroupResource, h: GroupResource)
    requires Linked(calls, list) && SomeEnabled(setup, list) && g in list && h in list
    ensures PrefixFor(setup, Run(calls), g) == PrefixFor(setup, Run(calls), h)
    ensures var c, d := ConfigFor(setup, Run(calls), g), ConfigFor(setup, Run(calls), h);
            c.Ok? && d.Ok? ==>
              && c.value.codec.Some? && d.value.codec.Some?
              && c.value.codec.value.storageVersion == d.value.codec.value.storageVersion
              && c.value == d.value.(codec := Some(d.value.codec.value.(memoryVersion := c.value.codec.value.memoryVersion)))
  {
    MemberResolves(setup, calls, list, g);
    MemberResolves(setup, calls, list, h);
  }

  /** With no member enabled, two linked resources go to two places. */
  lemma {:induction false} DisabledCohabitantsSplit(setup: Setup, g: GroupResource, h: GroupResource)
    requires g != h && setup.api == map[]
    ensures StorageResource(setup, Run([AddCohabitating([g, h])]), g) != StorageResource(setup, Run([AddCohabitating([g, h])]), h)
  {
    var calls := [AddCohabitating([g, h])];
    assert LinkedAt(calls, [g, h], 0);
    MemberResolves(setup, calls, [g, h], g);
    MemberResolves(setup, calls, [g, h], h);
  }
}
