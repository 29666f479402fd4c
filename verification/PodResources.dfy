/**
 Requests and limits of a pod (pkg/api/resource_helpers.go): summed over its containers, raised to what any
 init container names. Quantities are exact numbers.
 */
module PodResources {
  import opened Permutations

  type Resources = map<string, real>

  datatype Container = Container(requests: Resources, limits: Resources)

  function Requests(c: Container): Resources {
    c.requests
  }

  function Limits(c: Container): Resources {
    c.limits
  }

  // ----- what the loops compute -----

  function Amount(r: Resources, name: string): real {
    if name in r then r[name] else 0.0
  }

  /** One container added to the totals. */
  function Added(totals: Resources, r: Resources): Resources {
    map name | name in totals.Keys + r.Keys :: Amount(totals, name) + Amount(r, name)
  }

  /** One init container: every total it names is at least its value. */
  function Raised(totals: Resources, r: Resources): Resources {
    map name | name in totals.Keys + r.Keys ::
      if name !in totals || (name in r && r[name] > totals[name]) then r[name] else totals[name]
  }

  function Sums(containers: seq<Resources>): Resources {
    if |containers| == 0 then map[] else Added(Sums(containers[..|containers| - 1]), containers[|containers| - 1])
  }

  function Total(containers: seq<Resources>, inits: seq<Resources>): Resources {
    if |inits| == 0 then Sums(containers) else Raised(Total(containers, inits[..|inits| - 1]), inits[|inits| - 1])
  }

  method AddContainer(totals: Resources, r: Resources) returns (out: Resources)
    ensures out == Added(totals, r)
  {
    out := totals;
    var todo := r.Keys;
    while todo != {}
      invariant todo <= r.Keys
      invariant out.Keys == totals.Keys + (r.Keys - todo)
      invariant forall name :: name in out ==>
                  out[name] == if name in todo then Amount(totals, name) else Amount(totals, name) + Amount(r, name)
      decreases todo
    {
      var name :| name in todo;
      if name !in out {
        out := out[name := r[name]];
      } else {
        out := out[name := out[name] + r[name]];
      }
      todo := todo - {name};
    }
  }

  method RaiseToInit(totals: Resources, r: Resources) returns (out: Resources)
    ensures out == Raised(totals, r)
  {
    out := totals;
    var todo := r.Keys;
    while todo != {}
      invariant todo <= r.Keys
      invariant out.Keys == totals.Keys + (r.Keys - todo)
      invariant forall name :: name in out ==>
                  out[name] == if name in todo then totals[name] else Raised(totals, r)[name]
      decreases todo
    {
      var name :| name in todo;
      todo := todo - {name};
      if name !in out {
        out := out[name := r[name]];
        continue;
      }
      if r[name] > out[name] {
        out := out[name := r[name]];
      }
    }
  }

  method PodRequestsAndLimits(containers: seq<Container>, inits: seq<Container>) returns (reqs: Resources, limits: Resources)
    ensures reqs == Total(MapSeq(Requests, containers), MapSeq(Requests, inits))
    ensures limits == Total(MapSeq(Limits, containers), MapSeq(Limits, inits))
    ensures reqs == Total(seq(|containers|, i requires 0 <= i < |containers| => containers[i].requests),
                          seq(|inits|, i requires 0 <= i < |inits| => inits[i].requests))
    ensures limits == Total(seq(|containers|, i requires 0 <= i < |containers| => containers[i].limits),
                            seq(|inits|, i requires 0 <= i < |inits| => inits[i].limits))
  {
    reqs, limits := map[], map[];
    ghost var cr, cl := MapSeq(Requests, containers), MapSeq(Limits, containers);
    for i := 0 to |containers|
      invariant reqs == Sums(cr[..i]) && limits == Sums(cl[..i])
    {
      assert cr[..i + 1][..i] == cr[..i] && cl[..i + 1][..i] == cl[..i];
      reqs := AddContainer(reqs, containers[i].requests);
      limits := AddContainer(limits, containers[i].limits);
    }
    assert cr[..|cr|] == cr && cl[..|cl|] == cl;
    ghost var ir, il := MapSeq(Requests, inits), MapSeq(Limits, inits);
    for i := 0 to |inits|
      invariant reqs == Total(cr, ir[..i]) && limits == Total(cl, il[..i])
    {
      assert ir[..i + 1][..i] == ir[..i] && il[..i + 1][..i] == il[..i];
      reqs := RaiseToInit(reqs, inits[i].requests);
      limits := RaiseToInit(limits, inits[i].limits);
    }
    assert ir[..|ir|] == ir && il[..|il|] == il;
    Columns(containers);
    Columns(inits);
  }

  lemma {:induction false} Columns(cs: seq<Container>)
    ensures MapSeq(Requests, cs) == seq(|cs|, i requires 0 <= i < |cs| => cs[i].requests)
    ensures MapSeq(Limits, cs) == seq(|cs|, i requires 0 <= i < |cs| => cs[i].limits)
  {
  }

  // ----- the maximum of the sum and the init values -----

  ghost predicate Named(rs: seq<Resources>, name: string) {
    exists r :: r in rs && name in r
  }

  function Sum(rs: seq<Resources>, name: string): real {
    if |rs| == 0 then 0.0 else Sum(rs[..|rs| - 1], name) + Amount(rs[|rs| - 1], name)
  }

  /** The values a total has to cover: the sum, if any container names the resource, and each init value. */
  ghost predicate Covers(containers: seq<Resources>, inits: seq<Resources>, name: string, value: real) {
    || (Named(containers, name) && value == Sum(containers, name))
    || exists r :: r in inits && name in r && r[name] == value
  }

  ghost predicate IsMaximum(containers: seq<Resources>, inits: seq<Resources>, name: string, value: real) {
    && Covers(containers, inits, name, value)
    && forall other :: Covers(containers, inits, name, other) ==> other <= value
  }

  lemma {:induction false} SumsAre(containers: seq<Resources>, name: string)
    ensures name in Sums(containers) <==> Named(containers, name)
    ensures name in Sums(containers) ==> Sums(containers)[name] == Sum(containers, name)
    ensures name !in Sums(containers) ==> Sum(containers, name) == 0.0
  {
    if |containers| > 0 {
      var init, last := containers[..|containers| - 1], containers[|containers| - 1];
      assert containers == init + [last];
      SumsAre(init, name);
    }
  }

  lemma {:induction false} NamedGrows(init: seq<Resources>, last: Resources, name: string)
    ensures Named(init + [last], name) <==> Named(init, name) || name in last
  {
    if name in last {
      assert last in init + [last];
    }
    if Named(init, name) {
      var r :| r in init && name in r;
      assert r in init + [last];
    }
  }

  lemma {:induction false} CoversGrows(containers: seq<Resources>, init: seq<Resources>, last: Resources, name: string, value: real)
    ensures Covers(containers, init + [last], name, value) <==>
            Covers(containers, init, name, value) || (name in last && last[name] == value)
  {
    if name in last && last[name] == value {
      assert last in init + [last];
    }
    if r :| r in init && name in r && r[name] == value {
      assert r in init + [last];
    }
  }

  /** The totals hold exactly the resources named anywhere, each at the maximum it has to cover. */
  lemma {:induction false} TotalIsMaximum(containers: seq<Resources>, inits: seq<Resources>, name: string)
    ensures name in Total(containers, inits) <==> Named(containers, name) || Named(inits, name)
    ensures name in Total(containers, inits) ==> IsMaximum(containers, inits, name, Total(containers, inits)[name])
  {
    if |inits| == 0 {
      SumsAre(containers, name);
    } else {
      var init, last := inits[..|inits| - 1], inits[|inits| - 1];
      assert inits == init + [last];
      TotalIsMaximum(containers, init, name);
      NamedGrows(init, last, name);
      forall value ensures Covers(containers, inits, name, value) <==>
                           Covers(containers, init, name, value) || (name in last && last[name] == value) {
        CoversGrows(containers, init, last, name, value);
      }
      if name !in Total(containers, init) {
        forall value ensures !Covers(containers, init, name, value) {
        }
      }
    }
  }

  // ----- order does not matter -----

  lemma {:induction false} SumConcat(a: seq<Resources>, b: seq<Resources>, name: string)
    ensures Sum(a + b, name) == Sum(a, name) + Sum(b, name)
  {
    if |b| == 0 {
      assert a + b == a;
    } else {
      assert (a + b)[..|a + b| - 1] == a + b[..|b| - 1];
      SumConcat(a, b[..|b| - 1], name);
    }
  }

  lemma {:induction false} SumPermutes(a: seq<Resources>, b: seq<Resources>, name: string)
    requires multiset(a) == multiset(b)
    ensures Sum(a, name) == Sum(b, name)
    decreases |a|
  {
    SameElements(a, b);
    if |a| > 0 {
      var b1, b2 := CutOut(a, b);
      SumPermutes(a[1..], b1 + b2, name);
      assert a == [a[0]] + a[1..];
      SumConcat([a[0]], a[1..], name);
      SumConcat(b1, [a[0]] + b2, name);
      SumConcat([a[0]], b2, name);
      SumConcat(b1, b2, name);
      assert b == b1 + ([a[0]] + b2);
    }
  }

  /** Any order of the containers and of the init containers gives the same totals. */
  lemma {:induction false} OrderDoesNotMatter(c: seq<Resources>, c': seq<Resources>, i: seq<Resources>, i': seq<Resources>)
    requires multiset(c) == multiset(c') && multiset(i) == multiset(i')
    ensures Total(c, i) == Total(c', i')
  {
    SameElements(c, c');
    SameElements(i, i');
    forall name ensures (name in Total(c, i) <==> name in Total(c', i'))
                     && (name in Total(c, i) ==> Total(c, i)[name] == Total(c', i')[name]) {
      SameTotal(c, c', i, i', name);
    }
  }

  lemma {:induction false} SameTotal(c: seq<Resources>, c': seq<Resources>, i: seq<Resources>, i': seq<Resources>, name: string)
    requires multiset(c) == multiset(c')
    requires (forall r :: r in c <==> r in c') && (forall r :: r in i <==> r in i')
    ensures name in Total(c, i) <==> name in Total(c', i')
    ensures name in Total(c, i) ==> Total(c, i)[name] == Total(c', i')[name]
  {
    SumPermutes(c, c', name);
    TotalIsMaximum(c, i, name);
    TotalIsMaximum(c', i', name);
    assert Named(c, name) <==> Named(c', name);
    assert Named(i, name) <==> Named(i', name);
    if name in Total(c, i) {
      var x, y := Total(c, i)[name], Total(c', i')[name];
      assert Covers(c', i', name, x) && Covers(c, i, name, y);
    }
  }

  lemma {:induction false} PodOrderDoesNotMatter(c: seq<Container>, c': seq<Container>, i: seq<Container>, i': seq<Container>)
    requires multiset(c) == multiset(c') && multiset(i) == multiset(i')
    ensures Total(MapSeq(Requests, c), MapSeq(Requests, i)) == Total(MapSeq(Requests, c'), MapSeq(Requests, i'))
    ensures Total(MapSeq(Limits, c), MapSeq(Limits, i)) == Total(MapSeq(Limits, c'), MapSeq(Limits, i'))
  {
    MapPermutation(Requests, c, c');
    MapPermutation(Requests, i, i');
    MapPermutation(Limits, c, c');
    MapPermutation(Limits, i, i');
    OrderDoesNotMatter(MapSeq(Requests, c), MapSeq(Requests, c'), MapSeq(Requests, i), MapSeq(Requests, i'));
    OrderDoesNotMatter(MapSeq(Limits, c), MapSeq(Limits, c'), MapSeq(Limits, i), MapSeq(Limits, i'));
  }
}
