/**
 Field sets and the list-building loops of the selectors (pkg/fields): Set.String,
 SelectorFromSet, and the loops of parseSelector, andTerm.Transform and andTerm.Requirements.
 Go ranges over a map in an unspecified order, so the loops over a Set pick keys arbitrarily.
 */
module FieldSet {
  import opened Permutations
  import opened Strings
  import opened Wrappers
  import opened FieldSelector
  import opened FieldSelectorRoundTrip

  type Set = map<string, string>

  ghost predicate IsOrder(order: seq<string>, ls: Set) {
    && (forall k :: k in order <==> k in ls)
    && Distinct(order)
  }

  function Entries(ls: Set, order: seq<string>): (es: seq<Requirement>)
    requires forall k :: k in order ==> k in ls
    ensures |es| == |order|
    ensures forall i :: 0 <= i < |es| ==> es[i] == Requirement(Equals, order[i], ls[order[i]])
  {
    if |order| == 0 then [] else [Requirement(Equals, order[0], ls[order[0]])] + Entries(ls, order[1..])
  }

  function SetText(ls: Set, order: seq<string>): string
    requires forall k :: k in order ==> k in ls
  {
    Join(Sort(Texts(Entries(ls, order))), ",")
  }

  function FromSet(ls: Set, order: seq<string>): Selector
    requires forall k :: k in order ==> k in ls
  {
    Combine(AsTerms(Entries(ls, order)))
  }

  /** `order` lists, without repetition, the keys already taken out of `todo`. */
  ghost predicate Walked(order: seq<string>, ls: Set, todo: set<string>) {
    && todo <= ls.Keys
    && (forall k :: k in order <==> k in ls && k !in todo)
    && Distinct(order)
  }

  lemma {:induction false} WalkStep(order: seq<string>, ls: Set, todo: set<string>, k: string)
    requires Walked(order, ls, todo) && k in todo
    ensures Walked(order + [k], ls, todo - {k})
  {
  }

  lemma {:induction false} EntryTerms(ls: Set, order: seq<string>, items: seq<Selector>)
    requires |items| == |order| && forall k :: k in order ==> k in ls
    requires forall i :: 0 <= i < |order| ==> items[i] == Has(order[i], ls[order[i]])
    ensures items == AsTerms(Entries(ls, order))
  {
  }

  // ----- Set.String and SelectorFromSet as loops over the map -----

  /** Whatever order the loop visits, the text is the one that every order gives. */
  method SetString(ls: Set) returns (s: string)
    ensures forall order :: IsOrder(order, ls) ==> s == SetText(ls, order)
  {
    var selector: seq<string> := [];
    var todo := ls.Keys;
    ghost var order := [];
    while todo != {}
      invariant Walked(order, ls, todo)
      invariant |selector| == |order|
      invariant forall i :: 0 <= i < |order| ==> selector[i] == order[i] + "=" + ls[order[i]]
      decreases todo
    {
      var k :| k in todo;
      selector := selector + [k + "=" + ls[k]];
      WalkStep(order, ls, todo, k);
      order := order + [k];
      todo := todo - {k};
    }
    assert selector == Texts(Entries(ls, order));
    selector := Sort(selector);
    s := Join(selector, ",");
    forall other | IsOrder(other, ls) ensures s == SetText(ls, other) {
      SetTextIgnoresOrder(ls, order, other);
    }
  }

  /** A nil set is treated like Everything, which is also what an empty set gives. */
  method SelectorFromSet(ls: Option<Set>) returns (t: Selector, ghost order: seq<string>)
    ensures ls.None? ==> t == Everything
    ensures ls.Some? ==> IsOrder(order, ls.value) && t == FromSet(ls.value, order)
  {
    order := [];
    if ls.None? {
      return Everything, [];
    }
    var items: seq<Selector> := [];
    var m := ls.value;
    var todo := m.Keys;
    while todo != {}
      invariant Walked(order, m, todo)
      invariant |items| == |order|
      invariant forall i :: 0 <= i < |order| ==> items[i] == Has(order[i], m[order[i]])
      decreases todo
    {
      var k :| k in todo;
      items := items + [Has(k, m[k])];
      WalkStep(order, m, todo, k);
      order := order + [k];
      todo := todo - {k};
    }
    EntryTerms(m, order, items);
    if |items| == 1 {
      return items[0], order;
    }
    t := And(items);
  }

  // ----- what they mean -----

  /** The selector of a set matches precisely the fields that agree with it on every key. */
  lemma {:induction false} FromSetMeaning(ls: Set, order: seq<string>, fs: Fields)
    requires IsOrder(order, ls)
    ensures Matches(FromSet(ls, order), fs) <==> forall k :: k in ls ==> fs(k) == ls[k]
  {
    CombineRequires(Entries(ls, order));
    MatchesIsConjunction(FromSet(ls, order), fs);
    MeetsEntries(ls, order, fs);
  }

  lemma {:induction false} MeetsEntries(ls: Set, order: seq<string>, fs: Fields)
    requires IsOrder(order, ls)
    ensures Meets(Entries(ls, order), fs) <==> forall k :: k in ls ==> fs(k) == ls[k]
  {
    var es := Entries(ls, order);
    if Meets(es, fs) {
      forall k | k in ls ensures fs(k) == ls[k] {
        var i :| 0 <= i < |order| && order[i] == k;
        assert Matches(AsTerm(es[i]), fs);
      }
    }
    if forall k :: k in ls ==> fs(k) == ls[k] {
      forall r | r in es ensures Matches(AsTerm(r), fs) {
        assert r.field in order;
      }
    }
  }

  lemma {:induction false} CombineRequires(rs: seq<Requirement>)
    ensures Requirements(Combine(AsTerms(rs))) == rs
  {
    TermsRequire(rs);
    if |rs| == 1 {
      assert rs == [rs[0]];
    }
  }

  lemma {:induction false} PrintTerms(rs: seq<Requirement>)
    ensures PrintAll(AsTerms(rs)) == Texts(rs)
  {
    if |rs| > 0 {
      PrintTerms(rs[1..]);
      assert AsTerms(rs)[1..] == AsTerms(rs[1..]);
    }
  }

  /** Set.String prints the same text whatever order the map was walked in. */
  lemma {:induction false} SetTextIgnoresOrder(ls: Set, o1: seq<string>, o2: seq<string>)
    requires IsOrder(o1, ls) && IsOrder(o2, ls)
    ensures SetText(ls, o1) == SetText(ls, o2)
  {
    DistinctPermutation(o1, o2);
    MapPermutation(EntryText(ls), o1, o2);
    TextsOfEntries(ls, o1);
    TextsOfEntries(ls, o2);
    SortPermutation(Texts(Entries(ls, o1)), Texts(Entries(ls, o2)));
  }

  function EntryText(ls: Set): string -> string {
    (k: string) => if k in ls then k + "=" + ls[k] else ""
  }

  lemma {:induction false} TextsOfEntries(ls: Set, order: seq<string>)
    requires forall k :: k in order ==> k in ls
    ensures Texts(Entries(ls, order)) == MapSeq(EntryText(ls), order)
  {
  }

  /**
   The text of a set is meant to be in the parser's format: it parses back to the set's entries exactly
   when every entry is printable, and then it selects what SelectorFromSet selects.
   */
  lemma {:induction false} SetTextParsesBack(ls: Set, order: seq<string>)
    requires IsOrder(order, ls)
    ensures var p := ParseSelector(SetText(ls, order));
            p.Ok? && multiset(Requirements(p.value)) == multiset(Entries(ls, order)) <==>
              forall k :: k in ls ==> Printable(Requirement(Equals, k, ls[k]))
  {
    var fs := SetPrinted(ls, order);
    ArrangementParsesBack(fs, Entries(ls, order));
    EntriesPrintable(ls, order);
  }

  /** The printing half: the text is the printed form of an AND over the entries in some order. */
  lemma {:induction false} SetPrinted(ls: Set, order: seq<string>) returns (fs: seq<Requirement>)
    requires IsOrder(order, ls)
    ensures multiset(fs) == multiset(Entries(ls, order))
    ensures SetText(ls, order) == Print(And(AsTerms(fs)))
  {
    var es := Entries(ls, order);
    SortSorts(Texts(es));
    fs := Arrange(es, Sort(Texts(es)));
  }

  /** The parsing half: such an AND reads back exactly when every entry is printable. */
  lemma {:induction false} ArrangementParsesBack(fs: seq<Requirement>, es: seq<Requirement>)
    requires multiset(fs) == multiset(es)
    ensures var p := ParseSelector(Print(And(AsTerms(fs))));
            p.Ok? && multiset(Requirements(p.value)) == multiset(es) <==> forall r :: r in es ==> Printable(r)
  {
    TermsRequire(fs);
    var t := And(AsTerms(fs));
    assert Requirements(t) == fs;
    RoundTripIffPrintable(t);
    SameElements(fs, es);
  }

  /** The printed requirements in any order are the printed form of an AND over an arrangement of them. */
  lemma {:induction false} Arrange(es: seq<Requirement>, ss: seq<string>) returns (fs: seq<Requirement>)
    requires multiset(ss) == multiset(Texts(es))
    ensures multiset(fs) == multiset(es)
    ensures Print(And(AsTerms(fs))) == Join(ss, ",")
  {
    assert Texts(es) == MapSeq(Text, es);
    fs := LiftArrangement(Text, es, ss);
    assert Texts(fs) == MapSeq(Text, fs);
    PrintTerms(fs);
  }

  lemma {:induction false} EntriesPrintable(ls: Set, order: seq<string>)
    requires IsOrder(order, ls)
    ensures (forall r :: r in Entries(ls, order) ==> Printable(r)) <==>
              forall k :: k in ls ==> Printable(Requirement(Equals, k, ls[k]))
  {
    var es := Entries(ls, order);
    if forall r :: r in es ==> Printable(r) {
      forall k | k in ls ensures Printable(Requirement(Equals, k, ls[k])) {
        var i :| 0 <= i < |order| && order[i] == k;
        assert es[i] in es;
      }
    }
    if forall k :: k in ls ==> Printable(Requirement(Equals, k, ls[k])) {
      forall r | r in es ensures Printable(r) {
        assert r.field in order;
      }
    }
  }

  lemma {:induction false} SetTextMeansFromSet(ls: Set, order: seq<string>, fs: Fields)
    requires IsOrder(order, ls)
    requires forall k :: k in ls ==> Printable(Requirement(Equals, k, ls[k]))
    ensures ParseSelector(SetText(ls, order)).Ok?
    ensures Matches(ParseSelector(SetText(ls, order)).value, fs) == Matches(FromSet(ls, order), fs)
  {
    SetTextParsesBack(ls, order);
    CombineRequires(Entries(ls, order));
    SameRequirementsSameMeaning(ParseSelector(SetText(ls, order)).value, FromSet(ls, order), fs);
  }

  // ----- the loops of the selectors -----

  lemma {:induction false} ParseOneMore(parts: seq<string>, i: nat)
    requires i < |parts| && ParseParts(parts[..i]).Ok?
    ensures var done, part := ParseParts(parts[..i]).value, parts[i];
            ParseParts(parts[..i + 1]) ==
              if part == "" then Ok(done)
              else match ParsePart(part) case Some(q) => Ok(done + [q]) case None => Err
  {
    var done, part := ParseParts(parts[..i]).value, parts[i];
    assert parts[..i + 1] == parts[..i] + [part];
    ParseConcat(parts[..i], [part]);
    assert [part][1..] == [] && ParseParts([]) == Ok([]);
    assert done + [] == done;
    if part != "" && ParsePart(part).Some? {
      assert [ParsePart(part).value] + [] == [ParsePart(part).value];
    }
  }

  method ParseWith(selector: string, fn: TransformFunc) returns (r: Result<Selector>)
    ensures r == Parse(selector, fn)
  {
    var parts := Split(selector, ",");
    parts := Sort(parts);
    var items: seq<Selector> := [];
    ghost var done: seq<Requirement> := [];
    for i := 0 to |parts|
      invariant ParseParts(parts[..i]) == Ok(done)
      invariant items == AsTerms(done)
    {
      assert parts == parts[..i] + parts[i..];
      ParseConcat(parts[..i], parts[i..]);
      ParseOneMore(parts, i);
      var part := parts[i];
      if part == "" {
        continue;
      }
      var ne, ee, e := Try(part, "!="), Try(part, "=="), Try(part, "=");
      var term;
      if ne.Some? {
        term := NotHas(ne.value.0, ne.value.1);
      } else if ee.Some? {
        term := Has(ee.value.0, ee.value.1);
      } else if e.Some? {
        term := Has(e.value.0, e.value.1);
      } else {
        return Err;
      }
      items := items + [term];
      done := done + [ParsePart(part).value];
    }
    assert parts[..|parts|] == parts;
    r := Transform(if |items| == 1 then items[0] else And(items), fn);
  }

  method TransformSelector(t: Selector, fn: TransformFunc) returns (r: Result<Selector>)
    ensures r == Transform(t, fn)
    decreases t
  {
    match t
    case Has(f, v) =>
      var p := fn(f, v);
      if p.Err? { return Err; }
      return Ok(Has(p.value.0, p.value.1));
    case NotHas(f, v) =>
      var p := fn(f, v);
      if p.Err? { return Err; }
      return Ok(NotHas(p.value.0, p.value.1));
    case And(ts) =>
      var next: seq<Selector> := [];
      assert ts[0..] == ts;
      assert forall rest: seq<Selector> :: next + rest == rest;
      for i := 0 to |ts|
        invariant |next| == i
        invariant TransformAll(ts, fn) ==
                    (match TransformAll(ts[i..], fn) case Ok(rest) => Ok(next + rest) case Err => Err)
      {
        assert ts[i..][1..] == ts[i + 1..];
        var n := TransformSelector(ts[i], fn);
        if n.Err? { return Err; }
        next := next + [n.value];
        assert forall rest: seq<Selector> :: next[..i] + ([n.value] + rest) == next + rest;
        assert next[..i] + [n.value] == next;
      }
      assert ts[|ts|..] == [] && next + [] == next;
      r := Ok(And(next));
  }

  method RequirementsOf(t: Selector) returns (rs: seq<Requirement>)
    ensures rs == Requirements(t)
    decreases t
  {
    match t
    case Has(f, v) => rs := [Requirement(Equals, f, v)];
    case NotHas(f, v) => rs := [Requirement(NotEquals, f, v)];
    case And(ts) =>
      rs := [];
      for i := 0 to |ts|
        invariant AllRequirements(ts) == rs + AllRequirements(ts[i..])
      {
        assert ts[i..][1..] == ts[i + 1..];
        var more := RequirementsOf(ts[i]);
        assert rs + (more + AllRequirements(ts[i + 1..])) == (rs + more) + AllRequirements(ts[i + 1..]);
        rs := rs + more;
      }
  }
}
