/**
 Field selectors (pkg/fields): the AND tree, its evaluator, printer, parser and transformer.
 */
module FieldSelector {
  import opened Strings
  import opened Wrappers

  datatype Selector =
    | Has(field: string, value: string)
    | NotHas(field: string, value: string)
    | And(terms: seq<Selector>)

  datatype Operator = Equals | NotEquals

  datatype Requirement = Requirement(op: Operator, field: string, value: string)

  /** The Fields interface as the selectors use it: a total lookup. */
  type Fields = string -> string

  type TransformFunc = (string, string) -> Result<(string, string)>

  const Everything: Selector := And([])

  // ----- the selector methods -----

  predicate Matches(t: Selector, ls: Fields) {
    match t
    case Has(f, v) => ls(f) == v
    case NotHas(f, v) => ls(f) != v
    case And(ts) => forall i :: 0 <= i < |ts| ==> Matches(ts[i], ls)
  }

  predicate Empty(t: Selector) {
    match t
    case Has(_, _) => false
    case NotHas(_, _) => false
    case And(ts) => forall i :: 0 <= i < |ts| ==> Empty(ts[i])
  }

  function RequiresExactMatch(t: Selector, field: string): Option<string>
    decreases t, 1
  {
    match t
    case Has(f, v) => if f == field then Some(v) else None
    case NotHas(_, _) => None
    case And(ts) => FirstExactMatch(ts, field)
  }

  function FirstExactMatch(ts: seq<Selector>, field: string): Option<string>
    decreases ts, 0
  {
    if |ts| == 0 then None
    else
      var first := RequiresExactMatch(ts[0], field);
      if first.Some? then first else FirstExactMatch(ts[1..], field)
  }

  function Requirements(t: Selector): seq<Requirement>
    decreases t, 1
  {
    match t
    case Has(f, v) => [Requirement(Equals, f, v)]
    case NotHas(f, v) => [Requirement(NotEquals, f, v)]
    case And(ts) => AllRequirements(ts)
  }

  function AllRequirements(ts: seq<Selector>): seq<Requirement>
    decreases ts, 0
  {
    if |ts| == 0 then [] else Requirements(ts[0]) + AllRequirements(ts[1..])
  }

  function Print(t: Selector): string
    decreases t, 1
  {
    match t
    case Has(f, v) => f + "=" + v
    case NotHas(f, v) => f + "!=" + v
    case And(ts) => Join(PrintAll(ts), ",")
  }

  function PrintAll(ts: seq<Selector>): (ss: seq<string>)
    ensures |ss| == |ts|
    decreases ts, 0
  {
    if |ts| == 0 then [] else [Print(ts[0])] + PrintAll(ts[1..])
  }

  function Transform(t: Selector, fn: TransformFunc): Result<Selector>
    decreases t, 1
  {
    match t
    case Has(f, v) =>
      (match fn(f, v)
       case Ok(p) => Ok(Has(p.0, p.1))
       case Err => Err)
    case NotHas(f, v) =>
      (match fn(f, v)
       case Ok(p) => Ok(NotHas(p.0, p.1))
       case Err => Err)
    case And(ts) =>
      (match TransformAll(ts, fn)
       case Ok(next) => Ok(And(next))
       case Err => Err)
  }

  function TransformAll(ts: seq<Selector>, fn: TransformFunc): (r: Result<seq<Selector>>)
    ensures r.Ok? ==> |r.value| == |ts|
    decreases ts, 0
  {
    if |ts| == 0 then Ok([])
    else
      match Transform(ts[0], fn)
      case Err => Err
      case Ok(n) =>
        match TransformAll(ts[1..], fn)
        case Err => Err
        case Ok(ns) => Ok([n] + ns)
  }

  /** One requirement on its own, as a selector. */
  function AsTerm(r: Requirement): Selector {
    match r.op
    case Equals => Has(r.field, r.value)
    case NotEquals => NotHas(r.field, r.value)
  }

  ghost predicate Meets(rs: seq<Requirement>, ls: Fields) {
    forall r :: r in rs ==> Matches(AsTerm(r), ls)
  }

  /** Rewriting a requirement keeps its operator and takes field and value from the function. */
  predicate Rewrites(fn: TransformFunc, r: Requirement, r': Requirement) {
    r'.op == r.op && fn(r.field, r.value) == Ok((r'.field, r'.value))
  }

  ghost predicate RewritesAll(fn: TransformFunc, rs: seq<Requirement>, rs': seq<Requirement>) {
    |rs'| == |rs| && forall i :: 0 <= i < |rs| ==> Rewrites(fn, rs[i], rs'[i])
  }

  ghost predicate Refuses(fn: TransformFunc, rs: seq<Requirement>) {
    exists r :: r in rs && fn(r.field, r.value).Err?
  }

  /** Transform rewrites the requirements one by one, and fails exactly when the function refuses one. */
  lemma {:induction false} TransformRewrites(t: Selector, fn: TransformFunc)
    ensures match Transform(t, fn)
            case Ok(t') => RewritesAll(fn, Requirements(t), Requirements(t')) && !Refuses(fn, Requirements(t))
            case Err => Refuses(fn, Requirements(t))
    decreases t, 1
  {
    match t
    case Has(f, v) =>
      assert Requirement(Equals, f, v) in Requirements(t);
    case NotHas(f, v) =>
      assert Requirement(NotEquals, f, v) in Requirements(t);
    case And(ts) =>
      AllTransformRewrites(ts, fn);
  }

  lemma {:induction false} AllTransformRewrites(ts: seq<Selector>, fn: TransformFunc)
    ensures match TransformAll(ts, fn)
            case Ok(ts') => RewritesAll(fn, AllRequirements(ts), AllRequirements(ts')) && !Refuses(fn, AllRequirements(ts))
            case Err => Refuses(fn, AllRequirements(ts))
    decreases ts, 0
  {
    if |ts| > 0 {
      TransformRewrites(ts[0], fn);
      AllTransformRewrites(ts[1..], fn);
      var a, b := Requirements(ts[0]), AllRequirements(ts[1..]);
      if Refuses(fn, a) {
        var r :| r in a && fn(r.field, r.value).Err?;
        assert r in a + b;
      }
      if Refuses(fn, b) {
        var r :| r in b && fn(r.field, r.value).Err?;
        assert r in a + b;
      }
      if TransformAll(ts, fn).Ok? {
        var ts' := TransformAll(ts, fn).value;
        assert ts'[1..] == TransformAll(ts[1..], fn).value;
      }
    }
  }

  // ----- laws of the evaluator -----

  /** A selector matches exactly when every flattened requirement holds. */
  lemma {:induction false} MatchesIsConjunction(t: Selector, ls: Fields)
    ensures Matches(t, ls) <==> Meets(Requirements(t), ls)
    decreases t, 1
  {
    match t
    case Has(f, v) =>
      assert Requirement(Equals, f, v) in Requirements(t);
    case NotHas(f, v) =>
      assert Requirement(NotEquals, f, v) in Requirements(t);
    case And(ts) =>
      AllMatchIsConjunction(ts, ls);
  }

  lemma {:induction false} AllMatchIsConjunction(ts: seq<Selector>, ls: Fields)
    ensures (forall i :: 0 <= i < |ts| ==> Matches(ts[i], ls)) <==> Meets(AllRequirements(ts), ls)
    decreases ts, 0
  {
    if |ts| > 0 {
      MatchesIsConjunction(ts[0], ls);
      AllMatchIsConjunction(ts[1..], ls);
      assert ts == [ts[0]] + ts[1..];
    }
  }

  /** Fields that break one given requirement. */
  function Breaking(r: Requirement): Fields {
    (f: string) => if r.op == NotEquals then r.value else r.value + "x"
  }

  lemma {:induction false} BreakingBreaks(r: Requirement)
    ensures !Matches(AsTerm(r), Breaking(r))
  {
    assert |r.value + "x"| != |r.value|;
  }

  lemma {:induction false} EmptyIsNoRequirements(t: Selector)
    ensures Empty(t) <==> Requirements(t) == []
    decreases t, 1
  {
    if t.And? { AllEmptyIsNoRequirements(t.terms); }
  }

  lemma {:induction false} AllEmptyIsNoRequirements(ts: seq<Selector>)
    ensures (forall i :: 0 <= i < |ts| ==> Empty(ts[i])) <==> AllRequirements(ts) == []
    decreases ts, 0
  {
    if |ts| > 0 {
      EmptyIsNoRequirements(ts[0]);
      AllEmptyIsNoRequirements(ts[1..]);
      assert ts == [ts[0]] + ts[1..];
    }
  }

  /** Empty() says precisely that no fields whatsoever are rejected. */
  lemma {:induction false} EmptyMeansMatchesAll(t: Selector)
    ensures Empty(t) <==> forall ls: Fields :: Matches(t, ls)
  {
    EmptyIsNoRequirements(t);
    if Empty(t) {
      forall ls: Fields ensures Matches(t, ls) {
        MatchesIsConjunction(t, ls);
      }
    } else {
      var r := Requirements(t)[0];
      MatchesIsConjunction(t, Breaking(r));
      BreakingBreaks(r);
      assert r in Requirements(t);
    }
  }

  /** A required exact value is one of the flattened requirements, so every match carries it. */
  lemma {:induction false} ExactMatchIsRequired(t: Selector, field: string)
    ensures RequiresExactMatch(t, field).Some? <==>
              exists r :: r in Requirements(t) && r.op == Equals && r.field == field
    ensures RequiresExactMatch(t, field).Some? ==>
              Requirement(Equals, field, RequiresExactMatch(t, field).value) in Requirements(t)
    decreases t, 1
  {
    match t
    case Has(f, v) =>
      assert Requirements(t)[0] == Requirement(Equals, f, v);
    case NotHas(_, _) =>
    case And(ts) => FirstExactIsRequired(ts, field);
  }

  lemma {:induction false} FirstExactIsRequired(ts: seq<Selector>, field: string)
    ensures FirstExactMatch(ts, field).Some? <==>
              exists r :: r in AllRequirements(ts) && r.op == Equals && r.field == field
    ensures FirstExactMatch(ts, field).Some? ==>
              Requirement(Equals, field, FirstExactMatch(ts, field).value) in AllRequirements(ts)
    decreases ts, 0
  {
    if |ts| > 0 {
      ExactMatchIsRequired(ts[0], field);
      FirstExactIsRequired(ts[1..], field);
    }
  }

  lemma {:induction false} ExactMatchHolds(t: Selector, field: string, ls: Fields)
    requires RequiresExactMatch(t, field).Some? && Matches(t, ls)
    ensures ls(field) == RequiresExactMatch(t, field).value
  {
    ExactMatchIsRequired(t, field);
    MatchesIsConjunction(t, ls);
    var r := Requirement(Equals, field, RequiresExactMatch(t, field).value);
    assert Matches(AsTerm(r), ls);
  }

  // ----- the parser -----

  function Try(piece: string, op: string): Option<(string, string)>
    requires |op| > 0
  {
    var pieces := Split(piece, op);
    if |pieces| == 2 then Some((pieces[0], pieces[1])) else None
  }

  function ParsePart(part: string): Option<Requirement> {
    var ne := Try(part, "!=");
    if ne.Some? then Some(Requirement(NotEquals, ne.value.0, ne.value.1))
    else
      var ee := Try(part, "==");
      if ee.Some? then Some(Requirement(Equals, ee.value.0, ee.value.1))
      else
        var e := Try(part, "=");
        if e.Some? then Some(Requirement(Equals, e.value.0, e.value.1)) else None
  }

  function ParseParts(parts: seq<string>): Result<seq<Requirement>> {
    if |parts| == 0 then Ok([])
    else if parts[0] == "" then ParseParts(parts[1..])
    else
      match ParsePart(parts[0])
      case None => Err
      case Some(r) =>
        match ParseParts(parts[1..])
        case Err => Err
        case Ok(rs) => Ok([r] + rs)
  }

  function AsTerms(rs: seq<Requirement>): (ts: seq<Selector>)
    ensures |ts| == |rs|
    ensures forall i :: 0 <= i < |rs| ==> ts[i] == AsTerm(rs[i])
  {
    if |rs| == 0 then [] else [AsTerm(rs[0])] + AsTerms(rs[1..])
  }

  /** One item stands alone; any other number of items becomes an AND. */
  function Combine(items: seq<Selector>): Selector {
    if |items| == 1 then items[0] else And(items)
  }

  function Parse(selector: string, fn: TransformFunc): Result<Selector> {
    match ParseParts(Sort(Split(selector, ",")))
    case Err => Err
    case Ok(rs) => Transform(Combine(AsTerms(rs)), fn)
  }

  function Identity(field: string, value: string): Result<(string, string)> {
    Ok((field, value))
  }

  function ParseSelector(selector: string): Result<Selector> {
    Parse(selector, Identity)
  }
}
