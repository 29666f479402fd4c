/**
 The Docker keyring (pkg/credentialprovider/keyring.go): credentials by registry key, beside an index of
 the keys kept in descending order so that a more specific key is met before its prefixes.
 */
module Keyring {
  import opened Permutations
  import opened Strings
  import opened Wrappers

  datatype Url = Url(host: string, path: string)

  datatype Entry = Entry(username: string, password: string, email: string, provider: Option<nat>)

  datatype Auth = Auth(username: string, password: string, email: string, provider: Option<nat>)

  type Config = map<string, Entry>

  type Creds = map<string, seq<Auth>>

  /** The library calls the keyring rests on: url.Parse, net.SplitHostPort and filepath.Match. */
  datatype Library = Library(
    parse: string -> Result<Url>, splitHostPort: string -> Result<(string, string)>,
    glob: (string, string) -> Result<bool>)

  // ----- adding -----

  function ToAuth(e: Entry): Auth {
    if e.provider.Some? then Auth("", "", "", e.provider) else Auth(e.username, e.password, e.email, None)
  }

  /** The registry key of a location, unless it does not parse. */
  function Key(lib: Library, loc: string): Option<string> {
    var value := if HasPrefix(loc, "https://") || HasPrefix(loc, "http://") then loc else "https://" + loc;
    match lib.parse(value)
    case Err => None
    case Ok(url) =>
      var path := if HasPrefix(url.path, "/v2/") || HasPrefix(url.path, "/v1/") then url.path[3..] else url.path;
      Some(if |path| > 0 && path != "/" then url.host + path else url.host)
  }

  function Got(creds: Creds, k: string): seq<Auth> {
    if k in creds then creds[k] else []
  }

  function AuthAt(cfg: Config, loc: string): Auth {
    ToAuth(if loc in cfg then cfg[loc] else Entry("", "", "", None))
  }

  function AddOne(lib: Library, cfg: Config, creds: Creds, loc: string): Creds {
    match Key(lib, loc)
    case None => creds
    case Some(k) => creds[k := Got(creds, k) + [AuthAt(cfg, loc)]]
  }

  /** The loop of Add over the locations in the order in which the map yields them. */
  function AddAll(lib: Library, cfg: Config, creds: Creds, order: seq<string>): Creds {
    if |order| == 0 then creds
    else AddOne(lib, cfg, AddAll(lib, cfg, creds, order[..|order| - 1]), order[|order| - 1])
  }

  ghost predicate IsOrder(cfg: Config, order: seq<string>) {
    Distinct(order) && forall loc :: loc in order <==> loc in cfg
  }

  ghost predicate Descending(index: seq<string>) {
    forall i, j :: 0 <= i < j < |index| ==> index[i] != index[j] && Leq(index[j], index[i])
  }

  ghost predicate IsIndex(index: seq<string>, keys: set<string>) {
    Descending(index) && forall k :: k in index <==> k in keys
  }

  function Reversed(s: seq<string>): (r: seq<string>)
    ensures |r| == |s| && forall i :: 0 <= i < |s| ==> r[i] == s[|s| - 1 - i]
  {
    seq(|s|, i requires 0 <= i < |s| => s[|s| - 1 - i])
  }

  lemma {:induction false} SameMembers(s: seq<string>)
    ensures forall k :: k in Reversed(s) <==> k in s
  {
    forall k | k in s ensures k in Reversed(s) {
      var i :| 0 <= i < |s| && s[i] == k;
      assert Reversed(s)[|s| - 1 - i] == k;
    }
  }

  /** The body of the loop of Add: the key and the credentials of one location, unless it does not parse. */
  method ReadEntry(lib: Library, loc: string, ident: Entry) returns (r: Option<(string, Auth)>)
    ensures r == match Key(lib, loc)
                 case None => None
                 case Some(key) => Some((key, ToAuth(ident)))
  {
    var auth := Auth(ident.username, ident.password, ident.email, None);
    if ident.provider.Some? {
      auth := Auth("", "", "", ident.provider);
    }
    var value := loc;
    if !HasPrefix(value, "https://") && !HasPrefix(value, "http://") {
      value := "https://" + value;
    }
    var parsed := lib.parse(value);
    if parsed.Err? {
      return None;
    }
    var path := parsed.value.path;
    if HasPrefix(path, "/v2/") || HasPrefix(path, "/v1/") {
      path := path[3..];
    }
    var key := parsed.value.host;
    if |path| > 0 && path != "/" {
      key := parsed.value.host + path;
    }
    return Some((key, auth));
  }

  class BasicDockerKeyring {
    const lib: Library
    var index: seq<string>
    var creds: Creds

    ghost predicate Valid()
      reads this
    {
      IsIndex(index, creds.Keys) && forall k :: k in creds ==> creds[k] != []
    }

    constructor (lib: Library)
      ensures this.lib == lib && Valid() && creds == map[]
    {
      this.lib := lib;
      index, creds := [], map[];
    }

    method Add(cfg: Config) returns (ghost order: seq<string>)
      requires Valid()
      modifies this
      ensures Valid()
      ensures IsOrder(cfg, order) && creds == AddAll(lib, cfg, old(creds), order)
    {
      order := [];
      var todo := cfg.Keys;
      while todo != {}
        invariant todo <= cfg.Keys
        invariant Distinct(order) && forall loc :: loc in order <==> loc in cfg && loc !in todo
        invariant creds == AddAll(lib, cfg, old(creds), order)
        invariant forall k :: k in index <==> k in creds
        invariant forall k :: k in creds ==> creds[k] != []
        decreases todo
      {
        var loc :| loc in todo;
        todo := todo - {loc};
        assert (order + [loc])[..|order|] == order;
        order := order + [loc];
        var entry := ReadEntry(lib, loc, cfg[loc]);
        if entry.None? {
          continue;
        }
        var (key, auth) := entry.value;
        creds := creds[key := Got(creds, key) + [auth]];
        index := index + [key];
      }
      var keys := set k | k in index;
      var list := ListSorted(keys);
      index := Reversed(list);
      SameMembers(list);
    }

    method Lookup(image: string) returns (found: seq<Auth>, ok: bool)
      requires Valid()
      ensures (found, ok) == Answer(lib, index, creds, image)
    {
      found := [];
      for i := 0 to |index|
        invariant found == Gather(lib, index[..i], creds, image)
      {
        assert index[..i + 1][..i] == index[..i];
        var matched := UrlsMatchStr(lib, index[i], image);
        if matched != Ok(true) {
          continue;
        }
        found := found + Got(creds, index[i]);
      }
      assert index[..|index|] == index;
      if |found| > 0 {
        return found, true;
      }
      if IsDefaultRegistryMatch(image) {
        if DefaultRegistryHost in creds {
          return creds[DefaultRegistryHost], true;
        }
      }
      return [], false;
    }
  }

  const DefaultRegistryHost: string := "index.docker.io"

  // ----- matching -----

  function SplitUrl(lib: Library, host: string): (seq<string>, string) {
    match lib.splitHostPort(host)
    case Ok(hp) => (Split(hp.0, "."), hp.1)
    case Err => (Split(host, "."), "")
  }

  ghost predicate UrlFits(lib: Library, g: Url, t: Url) {
    var (gp, gport), (tp, tport) := SplitUrl(lib, g.host), SplitUrl(lib, t.host);
    gport == tport && |gp| == |tp| && HasPrefix(t.path, g.path)
  }

  /** The key's host pattern fits the image's host part by part, and its path is a prefix. */
  ghost predicate Matches(lib: Library, glob: string, target: string) {
    && lib.parse("https://" + glob).Ok? && lib.parse("https://" + target).Ok?
    && var g, t := lib.parse("https://" + glob).value, lib.parse("https://" + target).value;
    && UrlFits(lib, g, t)
    && forall i :: 0 <= i < |SplitUrl(lib, g.host).0| ==>
         lib.glob(SplitUrl(lib, g.host).0[i], SplitUrl(lib, t.host).0[i]) == Ok(true)
  }

  method UrlsMatch(lib: Library, g: Url, t: Url) returns (r: Result<bool>)
    ensures r == Ok(true) <==>
            && UrlFits(lib, g, t)
            && forall i :: 0 <= i < |SplitUrl(lib, g.host).0| ==>
                 lib.glob(SplitUrl(lib, g.host).0[i], SplitUrl(lib, t.host).0[i]) == Ok(true)
    ensures r == Err ==>
              && UrlFits(lib, g, t)
              && exists i :: 0 <= i < |SplitUrl(lib, g.host).0|
                   && lib.glob(SplitUrl(lib, g.host).0[i], SplitUrl(lib, t.host).0[i]) == Err
  {
    var (gp, gport) := SplitUrl(lib, g.host);
    var (tp, tport) := SplitUrl(lib, t.host);
    if gport != tport || |gp| != |tp| || !HasPrefix(t.path, g.path) {
      return Ok(false);
    }
    for k := 0 to |gp|
      invariant forall i :: 0 <= i < k ==> lib.glob(gp[i], tp[i]) == Ok(true)
    {
      var matched := lib.glob(gp[k], tp[k]);
      if matched.Err? {
        return Err;
      }
      if !matched.value {
        return Ok(false);
      }
    }
    return Ok(true);
  }

  method UrlsMatchStr(lib: Library, glob: string, target: string) returns (r: Result<bool>)
    ensures r == Ok(true) <==> Matches(lib, glob, target)
  {
    var g := lib.parse("https://" + glob);
    if g.Err? {
      return Err;
    }
    var t := lib.parse("https://" + target);
    if t.Err? {
      return Err;
    }
    r := UrlsMatch(lib, g.value, t.value);
  }

  /** The host is the name with that port, or has no port that can be split off. */
  ghost predicate HostIs(lib: Library, host: string, name: string, port: string) {
    match lib.splitHostPort(host)
    case Ok(hp) => hp == (name, port)
    case Err => name == host && port == ""
  }

  /** Name by name: equal ports, as many parts, each part fits the pattern, and the pattern's path begins the other. */
  lemma {:induction false} MatchesMeans(
    lib: Library, glob: string, target: string, g: Url, t: Url, gname: string, gport: string, tname: string, tport: string)
    requires lib.parse("https://" + glob) == Ok(g) && lib.parse("https://" + target) == Ok(t)
    requires HostIs(lib, g.host, gname, gport) && HostIs(lib, t.host, tname, tport)
    ensures var gp, tp := Split(gname, "."), Split(tname, ".");
            Matches(lib, glob, target) <==>
              && gport == tport && |gp| == |tp| && g.path <= t.path
              && forall i :: 0 <= i < |gp| ==> lib.glob(gp[i], tp[i]) == Ok(true)
  {
  }

  function IsDefaultRegistryMatch(image: string): bool {
    var i := IndexFrom(image, "/", 0);
    var first := if i == -1 then image else image[..i];
    if |first| == 0 then false
    else if i == -1 then true
    else if first == "docker.io" || first == DefaultRegistryHost then true
    else '.' !in first && ':' !in first
  }

  // ----- looking up -----

  function Flatten(part: string -> seq<Auth>, keys: seq<string>): seq<Auth> {
    if |keys| == 0 then [] else Flatten(part, keys[..|keys| - 1]) + part(keys[|keys| - 1])
  }

  /** What each key contributes to a lookup: its credentials if it matches. */
  ghost function Parts(lib: Library, creds: Creds, image: string): string -> seq<Auth> {
    k => if Matches(lib, k, image) then Got(creds, k) else []
  }

  ghost function Gather(lib: Library, keys: seq<string>, creds: Creds, image: string): seq<Auth> {
    Flatten(Parts(lib, creds, image), keys)
  }

  ghost function Answer(lib: Library, index: seq<string>, creds: Creds, image: string): (seq<Auth>, bool) {
    var found := Gather(lib, index, creds, image);
    if |found| > 0 then (found, true)
    else if IsDefaultRegistryMatch(image) && DefaultRegistryHost in creds then (creds[DefaultRegistryHost], true)
    else ([], false)
  }

  // ----- what the keyring keeps -----

  /** The index is a function of the keys. */
  lemma {:induction false} IndexUnique(a: seq<string>, b: seq<string>, keys: set<string>)
    requires IsIndex(a, keys) && IsIndex(b, keys)
    ensures a == b
    decreases |a|
  {
    assert |b| > 0 ==> b[0] in b;
    if |a| > 0 {
      assert a[0] in a && a[0] in b;
      var i :| 0 <= i < |b| && b[i] == a[0];
      assert b[0] in b && b[0] in a;
      var j :| 0 <= j < |a| && a[j] == b[0];
      if i > 0 {
        LeqReflexive(a[0]);
        assert Leq(b[i], b[0]) && Leq(a[j], a[0]);
        LeqAntisymmetric(a[0], b[0]);
        assert false;
      }
      IndexTail(a, keys);
      IndexTail(b, keys);
      IndexUnique(a[1..], b[1..], keys - {a[0]});
      assert a == [a[0]] + a[1..] && b == [b[0]] + b[1..];
    }
  }

  lemma {:induction false} IndexTail(a: seq<string>, keys: set<string>)
    requires IsIndex(a, keys) && |a| > 0
    ensures IsIndex(a[1..], keys - {a[0]})
  {
    forall k ensures k in a[1..] <==> k in keys - {a[0]} {
      assert k in a <==> k == a[0] || k in a[1..];
    }
  }

  /** A location with version path /v1/ or /v2/ has the key of the same location without it. */
  lemma {:induction false} VersionPathIsIgnored(lib: Library, a: string, b: string, url: Url, version: string)
    requires HasPrefix(a, "https://") && HasPrefix(b, "https://") && version in ["/v1", "/v2"]
    requires |url.path| > 0 && url.path[0] == '/' && !HasPrefix(url.path, "/v1/") && !HasPrefix(url.path, "/v2/")
    requires lib.parse(b) == Ok(url) && lib.parse(a) == Ok(url.(path := version + url.path))
    ensures Key(lib, a) == Key(lib, b)
  {
    var path := version + url.path;
    assert path[..4] == version + "/";
    assert path[3..] == url.path;
  }

  /** The entries of a configuration that name a key, in order. */
  function EntriesFor(lib: Library, cfg: Config, order: seq<string>, k: string): seq<Auth> {
    if |order| == 0 then []
    else
      EntriesFor(lib, cfg, order[..|order| - 1], k)
      + if Key(lib, order[|order| - 1]) == Some(k) then [AuthAt(cfg, order[|order| - 1])] else []
  }

  /** Add appends to each key exactly the entries that name it; everything already there stays. */
  lemma {:induction false} AddAppends(lib: Library, cfg: Config, creds: Creds, order: seq<string>, k: string)
    ensures Got(AddAll(lib, cfg, creds, order), k) == Got(creds, k) + EntriesFor(lib, cfg, order, k)
  {
    if |order| > 0 {
      var init, last := order[..|order| - 1], order[|order| - 1];
      AddAppends(lib, cfg, creds, init, k);
      AddOneAppends(lib, cfg, AddAll(lib, cfg, creds, init), last, k);
    } else {
      assert Got(creds, k) + [] == Got(creds, k);
    }
  }

  lemma {:induction false} AddOneAppends(lib: Library, cfg: Config, creds: Creds, loc: string, k: string)
    ensures Got(AddOne(lib, cfg, creds, loc), k) ==
            Got(creds, k) + if Key(lib, loc) == Some(k) then [AuthAt(cfg, loc)] else []
  {
  }

  lemma {:induction false} AddKeys(lib: Library, cfg: Config, creds: Creds, order: seq<string>, k: string)
    ensures k in AddAll(lib, cfg, creds, order) <==> k in creds || exists loc :: loc in order && Key(lib, loc) == Some(k)
  {
    if |order| > 0 {
      var init, loc := order[..|order| - 1], order[|order| - 1];
      AddKeys(lib, cfg, creds, init, k);
      assert order == init + [loc];
    }
  }

  /** No entry that parses is lost. */
  lemma {:induction false} EntryIsKept(lib: Library, cfg: Config, creds: Creds, order: seq<string>, loc: string, k: string)
    requires IsOrder(cfg, order) && loc in cfg && Key(lib, loc) == Some(k)
    ensures ToAuth(cfg[loc]) in Got(AddAll(lib, cfg, creds, order), k)
  {
    AddAppends(lib, cfg, creds, order, k);
    EntryIsListed(lib, cfg, order, loc, k);
  }

  lemma {:induction false} EntryIsListed(lib: Library, cfg: Config, order: seq<string>, loc: string, k: string)
    requires loc in order && Key(lib, loc) == Some(k)
    ensures AuthAt(cfg, loc) in EntriesFor(lib, cfg, order, k)
  {
    var init, last := order[..|order| - 1], order[|order| - 1];
    assert order == init + [last];
    if loc != last {
      EntryIsListed(lib, cfg, init, loc, k);
    }
  }

  lemma {:induction false} EntriesConcat(lib: Library, cfg: Config, a: seq<string>, b: seq<string>, k: string)
    ensures EntriesFor(lib, cfg, a + b, k) == EntriesFor(lib, cfg, a, k) + EntriesFor(lib, cfg, b, k)
  {
    if |b| == 0 {
      assert a + b == a;
    } else {
      var init, last := b[..|b| - 1], b[|b| - 1];
      assert (a + b)[..|a + b| - 1] == a + init && (a + b)[|a + b| - 1] == last;
      EntriesConcat(lib, cfg, a, init, k);
    }
  }

  lemma {:induction false} EntriesCut(lib: Library, cfg: Config, a: seq<string>, x: string, b: seq<string>, k: string)
    ensures multiset(EntriesFor(lib, cfg, a + [x] + b, k)) ==
            multiset(EntriesFor(lib, cfg, [x], k)) + multiset(EntriesFor(lib, cfg, a + b, k))
  {
    EntriesConcat(lib, cfg, a + [x], b, k);
    EntriesConcat(lib, cfg, a, [x], k);
    EntriesConcat(lib, cfg, a, b, k);
  }

  lemma {:induction false} EntriesPermute(lib: Library, cfg: Config, a: seq<string>, b: seq<string>, k: string)
    requires multiset(a) == multiset(b)
    ensures multiset(EntriesFor(lib, cfg, a, k)) == multiset(EntriesFor(lib, cfg, b, k))
    decreases |a|
  {
    SameElements(a, b);
    if |a| > 0 {
      var b1, b2 := CutOut(a, b);
      EntriesPermute(lib, cfg, a[1..], b1 + b2, k);
      assert a == [] + [a[0]] + a[1..] && [] + a[1..] == a[1..];
      EntriesCut(lib, cfg, [], a[0], a[1..], k);
      EntriesCut(lib, cfg, b1, a[0], b2, k);
    }
  }

  /** The order in which Go visits a configuration only permutes the credentials of each key. */
  lemma {:induction false} VisitOrderOnlyPermutes(lib: Library, cfg: Config, creds: Creds, o: seq<string>, p: seq<string>, k: string)
    requires IsOrder(cfg, o) && IsOrder(cfg, p)
    ensures k in AddAll(lib, cfg, creds, o) <==> k in AddAll(lib, cfg, creds, p)
    ensures multiset(Got(AddAll(lib, cfg, creds, o), k)) == multiset(Got(AddAll(lib, cfg, creds, p), k))
  {
    AddKeys(lib, cfg, creds, o, k);
    AddKeys(lib, cfg, creds, p, k);
    AddAppends(lib, cfg, creds, o, k);
    AddAppends(lib, cfg, creds, p, k);
    DistinctPermutation(o, p);
    EntriesPermute(lib, cfg, o, p, k);
  }

  // ----- what a lookup gives -----

  lemma {:induction false} FlattenConcat(part: string -> seq<Auth>, a: seq<string>, b: seq<string>)
    ensures Flatten(part, a + b) == Flatten(part, a) + Flatten(part, b)
    decreases |b|
  {
    if |b| == 0 {
      assert a + b == a;
    } else {
      var init, last := b[..|b| - 1], b[|b| - 1];
      assert (a + b)[..|a + b| - 1] == a + init && (a + b)[|a + b| - 1] == last;
      FlattenConcat(part, a, init);
    }
  }

  lemma {:induction false} FlattenTwo(part: string -> seq<Auth>, a: seq<string>, k: string, b: seq<string>, short: string, c: seq<string>)
    ensures Flatten(part, a + [k] + b + [short] + c) ==
            Flatten(part, a) + part(k) + Flatten(part, b) + part(short) + Flatten(part, c)
  {
    FlattenOne(part, a + [k] + b, short, c);
    FlattenOne(part, a, k, b);
  }

  lemma {:induction false} FlattenOne(part: string -> seq<Auth>, a: seq<string>, k: string, b: seq<string>)
    ensures Flatten(part, a + [k] + b) == Flatten(part, a) + part(k) + Flatten(part, b)
  {
    FlattenConcat(part, a + [k], b);
    assert (a + [k])[..|a|] == a;
  }

  /** A key stands before every proper prefix of it. */
  lemma {:induction false} PrefixComesLater(index: seq<string>, i: nat, j: nat)
    requires Descending(index) && i < |index| && j < |index| && index[j] < index[i]
    ensures i < j
  {
    PrefixLeq(index[j], index[i]);
    if j < i {
      LeqAntisymmetric(index[i], index[j]);
    }
  }

  /** A matching key's credentials all come before those of a matching key that is a proper prefix of it. */
  lemma {:induction false} MoreSpecificFirst(
    lib: Library, index: seq<string>, creds: Creds, image: string, k: string, short: string)
    returns (before: seq<Auth>, between: seq<Auth>, after: seq<Auth>)
    requires IsIndex(index, creds.Keys)
    requires k in creds && short in creds && short < k
    requires Matches(lib, k, image) && Matches(lib, short, image)
    ensures Gather(lib, index, creds, image) == before + creds[k] + between + creds[short] + after
  {
    var i :| 0 <= i < |index| && index[i] == k;
    var j :| 0 <= j < |index| && index[j] == short;
    PrefixComesLater(index, i, j);
    var a, b, c := index[..i], index[i + 1..j], index[j + 1..];
    CutTwo(index, i, j);
    var part := Parts(lib, creds, image);
    FlattenTwo(part, a, k, b, short, c);
    before, between, after := Flatten(part, a), Flatten(part, b), Flatten(part, c);
  }

  lemma {:induction false} GatherContents(lib: Library, keys: seq<string>, creds: Creds, image: string)
    requires forall k :: k in keys ==> k in creds && creds[k] != []
    ensures forall a :: a in Gather(lib, keys, creds, image) <==>
              exists k :: k in keys && Matches(lib, k, image) && a in creds[k]
    ensures Gather(lib, keys, creds, image) == [] <==> forall k :: k in keys ==> !Matches(lib, k, image)
  {
    if |keys| > 0 {
      var init, last := keys[..|keys| - 1], keys[|keys| - 1];
      assert keys == init + [last];
      GatherContents(lib, init, creds, image);
    }
  }

  /**
   A lookup gives exactly the credentials of the matching keys. The default registry is asked only if no key
   matches, and the lookup fails exactly when that gives nothing either.
   */
  lemma {:induction false} LookupGives(lib: Library, index: seq<string>, creds: Creds, image: string)
    requires IsIndex(index, creds.Keys) && forall k :: k in creds ==> creds[k] != []
    ensures var (found, ok) := Answer(lib, index, creds, image);
            && ((exists k :: k in creds && Matches(lib, k, image)) ==>
                  && ok && found == Gather(lib, index, creds, image)
                  && forall a :: a in found <==> exists k :: k in creds && Matches(lib, k, image) && a in creds[k])
            && ((forall k :: k in creds ==> !Matches(lib, k, image)) ==>
                  && (ok <==> IsDefaultRegistryMatch(image) && DefaultRegistryHost in creds)
                  && found == if ok then creds[DefaultRegistryHost] else [])
  {
    GatherContents(lib, index, creds, image);
  }

  /** An image without a registry of its own falls back to the credentials of index.docker.io. */
  lemma {:induction false} FallsBackToDockerHub(lib: Library, index: seq<string>, creds: Creds, image: string)
    requires IsIndex(index, creds.Keys) && (forall k :: k in creds ==> creds[k] != [])
    requires (forall k :: k in creds ==> !Matches(lib, k, image)) && image != "" && '/' !in image
    ensures Answer(lib, index, creds, image) ==
            if "index.docker.io" in creds then (creds["index.docker.io"], true) else ([], false)
  {
    LookupGives(lib, index, creds, image);
    DefaultRegistryImages(image, "");
  }

  // ----- any sequence of Adds -----

  ghost predicate AreOrders(cfgs: seq<Config>, orders: seq<seq<string>>) {
    |orders| == |cfgs| && forall i :: 0 <= i < |cfgs| ==> IsOrder(cfgs[i], orders[i])
  }

  function AddRun(lib: Library, cfgs: seq<Config>, orders: seq<seq<string>>): Creds
    requires |orders| == |cfgs|
  {
    if |cfgs| == 0 then map[]
    else
      var n := |cfgs| - 1;
      AddAll(lib, cfgs[n], AddRun(lib, cfgs[..n], orders[..n]), orders[n])
  }

  /** All entries of all configurations that name a key, oldest first. */
  function RunEntries(lib: Library, cfgs: seq<Config>, orders: seq<seq<string>>, k: string): seq<Auth>
    requires |orders| == |cfgs|
  {
    if |cfgs| == 0 then []
    else
      var n := |cfgs| - 1;
      RunEntries(lib, cfgs[..n], orders[..n], k) + EntriesFor(lib, cfgs[n], orders[n], k)
  }

  /** After any sequence of Adds a key holds every entry ever added for it, in order, and nothing else. */
  lemma {:induction false} RunKeepsEverything(lib: Library, cfgs: seq<Config>, orders: seq<seq<string>>, k: string)
    requires |orders| == |cfgs|
    ensures Got(AddRun(lib, cfgs, orders), k) == RunEntries(lib, cfgs, orders, k)
  {
    if |cfgs| > 0 {
      var n := |cfgs| - 1;
      RunKeepsEverything(lib, cfgs[..n], orders[..n], k);
      AddAppends(lib, cfgs[n], AddRun(lib, cfgs[..n], orders[..n]), orders[n], k);
    }
  }

  ghost predicate Gives(lib: Library, cfg: Config, k: string, a: Auth) {
    exists loc :: loc in cfg && Key(lib, loc) == Some(k) && a == ToAuth(cfg[loc])
  }

  /** Some configuration has an entry for the key with these credentials. */
  ghost predicate Supplies(lib: Library, cfgs: seq<Config>, k: string, a: Auth) {
    exists i :: 0 <= i < |cfgs| && Gives(lib, cfgs[i], k, a)
  }

  lemma {:induction false} EntriesListed(lib: Library, cfg: Config, order: seq<string>, k: string, a: Auth)
    ensures a in EntriesFor(lib, cfg, order, k) <==>
            exists loc :: loc in order && Key(lib, loc) == Some(k) && a == AuthAt(cfg, loc)
  {
    if |order| > 0 {
      var init, last := order[..|order| - 1], order[|order| - 1];
      assert order == init + [last];
      EntriesListed(lib, cfg, init, k, a);
    }
  }

  lemma {:induction false} EntriesGiven(lib: Library, cfg: Config, order: seq<string>, k: string, a: Auth)
    requires IsOrder(cfg, order)
    ensures a in EntriesFor(lib, cfg, order, k) <==> Gives(lib, cfg, k, a)
  {
    EntriesListed(lib, cfg, order, k, a);
  }

  lemma {:induction false} SuppliesGrows(lib: Library, init: seq<Config>, last: Config, k: string, a: Auth)
    ensures Supplies(lib, init + [last], k, a) <==> Supplies(lib, init, k, a) || Gives(lib, last, k, a)
  {
    var cfgs := init + [last];
    if i :| 0 <= i < |init| && Gives(lib, init[i], k, a) {
      assert cfgs[i] == init[i];
    }
    assert cfgs[|init|] == last;
  }

  lemma {:induction false} RunSupplies(lib: Library, cfgs: seq<Config>, orders: seq<seq<string>>, k: string, a: Auth)
    requires AreOrders(cfgs, orders)
    ensures a in RunEntries(lib, cfgs, orders, k) <==> Supplies(lib, cfgs, k, a)
  {
    if |cfgs| > 0 {
      var n := |cfgs| - 1;
      RunSupplies(lib, cfgs[..n], orders[..n], k, a);
      EntriesGiven(lib, cfgs[n], orders[n], k, a);
      SuppliesGrows(lib, cfgs[..n], cfgs[n], k, a);
      assert cfgs == cfgs[..n] + [cfgs[n]];
    }
  }

  lemma {:induction false} RunHolds(lib: Library, cfgs: seq<Config>, orders: seq<seq<string>>, k: string, a: Auth)
    requires AreOrders(cfgs, orders)
    ensures a in Got(AddRun(lib, cfgs, orders), k) <==> Supplies(lib, cfgs, k, a)
  {
    RunKeepsEverything(lib, cfgs, orders, k);
    RunSupplies(lib, cfgs, orders, k, a);
  }

  ghost predicate Matched(lib: Library, cfgs: seq<Config>, image: string, a: Auth) {
    exists k :: Supplies(lib, cfgs, k, a) && Matches(lib, k, image)
  }

  /** What the configurations alone say a lookup finds: what matches, else what the default registry has. */
  ghost predicate Findable(lib: Library, cfgs: seq<Config>, image: string, a: Auth) {
    if exists other :: Matched(lib, cfgs, image, other) then Matched(lib, cfgs, image, a)
    else IsDefaultRegistryMatch(image) && Supplies(lib, cfgs, DefaultRegistryHost, a)
  }

  ghost predicate Rich(creds: Creds) {
    forall k :: k in creds ==> creds[k] != []
  }

  lemma {:induction false} AddAllRich(lib: Library, cfg: Config, creds: Creds, order: seq<string>)
    requires Rich(creds)
    ensures Rich(AddAll(lib, cfg, creds, order))
  {
    if |order| > 0 {
      AddAllRich(lib, cfg, creds, order[..|order| - 1]);
    }
  }

  /** No key is ever left without credentials. */
  lemma {:induction false} AddRunRich(lib: Library, cfgs: seq<Config>, orders: seq<seq<string>>)
    requires |orders| == |cfgs|
    ensures Rich(AddRun(lib, cfgs, orders))
  {
    if |cfgs| > 0 {
      var n := |cfgs| - 1;
      AddRunRich(lib, cfgs[..n], orders[..n]);
      AddAllRich(lib, cfgs[n], AddRun(lib, cfgs[..n], orders[..n]), orders[n]);
    }
  }

  /** The key of a location without a scheme or version path: the host, and the path unless it is empty or a slash. */
  lemma {:induction false} PlainKey(lib: Library, loc: string, host: string, path: string)
    requires !HasPrefix(loc, "http://") && !HasPrefix(loc, "https://")
    requires lib.parse("https://" + loc) == Ok(Url(host, path))
    requires !HasPrefix(path, "/v1/") && !HasPrefix(path, "/v2/")
    ensures Key(lib, loc) == Some(if path == "" || path == "/" then host else host + path)
  {
  }

  /** A location that carries its scheme is parsed as it stands; one that does not parse has no key. */
  lemma {:induction false} SchemeKey(lib: Library, loc: string)
    requires HasPrefix(loc, "http://") || HasPrefix(loc, "https://")
    ensures lib.parse(loc).Err? ==> Key(lib, loc) == None
    ensures forall host, path ::
              lib.parse(loc) == Ok(Url(host, path)) && !HasPrefix(path, "/v1/") && !HasPrefix(path, "/v2/") ==>
              Key(lib, loc) == Some(if path == "" || path == "/" then host else host + path)
  {
  }

  /** The credentials an entry stands for: its user, password and email, or its provider alone. */
  ghost predicate Credentials(e: Entry, a: Auth) {
    match e.provider
    case None => a.username == e.username && a.password == e.password && a.email == e.email && a.provider == None
    case Some(p) => a.username == "" && a.password == "" && a.email == "" && a.provider == Some(p)
  }

  lemma {:induction false} EntrySupplies(lib: Library, cfgs: seq<Config>, i: nat, loc: string, key: string, a: Auth)
    requires i < |cfgs| && loc in cfgs[i] && Key(lib, loc) == Some(key) && Credentials(cfgs[i][loc], a)
    ensures Supplies(lib, cfgs, key, a)
  {
    assert Gives(lib, cfgs[i], key, a);
  }

  /** An entry of any configuration is found for the images its key matches, as the credentials it stands for. */
  lemma {:induction false} EntryIsFound(
    lib: Library, cfgs: seq<Config>, orders: seq<seq<string>>, index: seq<string>, creds: Creds, image: string,
    i: nat, loc: string, key: string, a: Auth)
    requires AreOrders(cfgs, orders) && creds == AddRun(lib, cfgs, orders) && IsIndex(index, creds.Keys)
    requires i < |cfgs| && loc in cfgs[i] && Key(lib, loc) == Some(key) && Matches(lib, key, image)
    requires Credentials(cfgs[i][loc], a)
    ensures var (found, ok) := Answer(lib, index, creds, image); ok && a in found
  {
    EntrySupplies(lib, cfgs, i, loc, key, a);
    assert Matched(lib, cfgs, image, a);
    assert Findable(lib, cfgs, image, a);
    AnswerIsFindable(lib, cfgs, orders, index, creds, image);
  }

  lemma {:induction false} MatchedInCreds(
    lib: Library, cfgs: seq<Config>, orders: seq<seq<string>>, creds: Creds, image: string, a: Auth)
    requires AreOrders(cfgs, orders) && creds == AddRun(lib, cfgs, orders)
    ensures Matched(lib, cfgs, image, a) <==> exists k :: k in creds && Matches(lib, k, image) && a in creds[k]
  {
    forall k ensures Supplies(lib, cfgs, k, a) <==> k in creds && a in creds[k] {
      RunHolds(lib, cfgs, orders, k, a);
    }
  }

  /** A lookup after any sequence of Adds finds exactly what the configurations say, whatever the visiting orders. */
  lemma {:induction false} AnswerIsFindable(
    lib: Library, cfgs: seq<Config>, orders: seq<seq<string>>, index: seq<string>, creds: Creds, image: string)
    requires AreOrders(cfgs, orders) && creds == AddRun(lib, cfgs, orders) && IsIndex(index, creds.Keys)
    ensures var (found, ok) := Answer(lib, index, creds, image);
            && (ok <==> found != [])
            && forall a :: a in found <==> Findable(lib, cfgs, image, a)
  {
    AddRunRich(lib, cfgs, orders);
    LookupGives(lib, index, creds, image);
    var (found, ok) := Answer(lib, index, creds, image);
    forall a ensures Matched(lib, cfgs, image, a) <==> exists k :: k in creds && Matches(lib, k, image) && a in creds[k] {
      MatchedInCreds(lib, cfgs, orders, creds, image, a);
    }
    if k :| k in creds && Matches(lib, k, image) {
      assert creds[k][0] in creds[k];
      assert Matched(lib, cfgs, image, creds[k][0]);
    } else {
      forall a ensures a in found <==> Findable(lib, cfgs, image, a) {
        RunHolds(lib, cfgs, orders, DefaultRegistryHost, a);
      }
    }
  }

  lemma {:induction false} OneMoreAdd(lib: Library, cfgs: seq<Config>, i: nat, orders: seq<seq<string>>, order: seq<string>)
    requires i < |cfgs| && AreOrders(cfgs[..i], orders) && IsOrder(cfgs[i], order)
    ensures AreOrders(cfgs[..i + 1], orders + [order])
    ensures AddRun(lib, cfgs[..i + 1], orders + [order]) == AddAll(lib, cfgs[i], AddRun(lib, cfgs[..i], orders), order)
  {
    assert cfgs[..i + 1][..i] == cfgs[..i] && (orders + [order])[..i] == orders;
  }

  method AddEach(lib: Library, cfgs: seq<Config>) returns (keyring: BasicDockerKeyring, ghost orders: seq<seq<string>>)
    ensures fresh(keyring) && keyring.Valid() && keyring.lib == lib
    ensures AreOrders(cfgs, orders) && keyring.creds == AddRun(lib, cfgs, orders)
  {
    keyring := new BasicDockerKeyring(lib);
    orders := [];
    for i := 0 to |cfgs|
      invariant fresh(keyring) && keyring.Valid()
      invariant AreOrders(cfgs[..i], orders)
      invariant keyring.creds == AddRun(lib, cfgs[..i], orders)
    {
      ghost var order := keyring.Add(cfgs[i]);
      OneMoreAdd(lib, cfgs, i, orders, order);
      orders := orders + [order];
    }
    assert cfgs[..|cfgs|] == cfgs;
  }

  ghost predicate IsAnswer(
    lib: Library, cfgs: seq<Config>, orders: seq<seq<string>>, index: seq<string>, image: string, found: seq<Auth>, ok: bool)
  {
    && AreOrders(cfgs, orders) && IsIndex(index, AddRun(lib, cfgs, orders).Keys)
    && (found, ok) == Answer(lib, index, AddRun(lib, cfgs, orders), image)
  }

  /** The lookup of the lazy keyring: add what every provider provides, in turn, then look up. */
  method LazyLookup(lib: Library, cfgs: seq<Config>, image: string) returns (found: seq<Auth>, ok: bool)
    ensures ok <==> found != []
    ensures forall a :: a in found <==> Findable(lib, cfgs, image, a)
    ensures exists orders, index :: IsAnswer(lib, cfgs, orders, index, image, found, ok)
  {
    ghost var orders;
    var keyring;
    keyring, orders := AddEach(lib, cfgs);
    found, ok := keyring.Lookup(image);
    AnswerIsFindable(lib, cfgs, orders, keyring.index, keyring.creds, image);
    assert IsAnswer(lib, cfgs, orders, keyring.index, image, found, ok);
  }

  /** Only the part before the first slash decides whether an image comes from the default registry. */
  lemma {:induction false} DefaultRegistryImages(host: string, rest: string)
    requires '/' !in host
    ensures IsDefaultRegistryMatch(host) <==> host != ""
    ensures IsDefaultRegistryMatch(host + "/" + rest) <==>
            host != "" && (host == "docker.io" || host == DefaultRegistryHost || ('.' !in host && ':' !in host))
  {
    var image := host + "/" + rest;
    forall j ensures OccursAt(host, "/", j) <==> false {
      OneCharOccurs(host, '/', j);
    }
    forall j | 0 <= j <= |host| ensures OccursAt(image, "/", j) <==> j == |host| {
      OneCharOccurs(image, '/', j);
    }
    assert OccursAt(image, "/", |host|);
    assert IndexFrom(image, "/", 0) == |host|;
    assert image[..|host|] == host;
  }
}
