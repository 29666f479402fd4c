/**
 Printing and parsing field selectors (pkg/fields): which selectors survive the round trip,
 and what the parser does not depend on.
 */
module FieldSelectorRoundTrip {
  import opened Permutations
  import opened Strings
  import opened Wrappers
  import opened FieldSelector

  /** The requirements whose printed form the parser reads back, see RoundTripIffPrintable. */
  ghost predicate Printable(r: Requirement) {
    && ',' !in r.field && ',' !in r.value
    && match r.op
       case Equals =>
         '=' !in r.field && '=' !in r.value && !(|r.field| > 0 && r.field[|r.field| - 1] == '!')
       case NotEquals =>
         !Contains(r.field, "!=") && !Contains(r.value, "!=")
  }

  function Text(r: Requirement): string {
    Print(AsTerm(r))
  }

  // ----- one part -----

  lemma {:induction false} TwoParts(s: string, op: string)
    requires |op| > 0 && Try(s, op).Some?
    ensures var (a, b) := Try(s, op).value;
            && s == a + op + b
            && !Contains(b, op)
            && forall j :: 0 <= j < |a| ==> !OccursAt(s, op, j)
  {
    JoinSplit(s, op);
    var i := IndexFrom(s, op, 0);
    var rest := s[i + |op|..];
    assert Split(s, op) == [s[..i]] + Split(rest, op);
    assert IndexFrom(rest, op, 0) == -1;
    var (a, b) := Try(s, op).value;
    assert [a, b][1..] == [b];
    assert Join([a, b], op) == a + op + b;
    assert a == s[..i] && b == rest;
  }

  lemma {:induction false} TwoPartsConverse(a: string, op: string, b: string)
    requires |op| > 0
    requires forall j :: 0 <= j < |a| ==> !OccursAt(a + op + b, op, j)
    requires !Contains(b, op)
    ensures Try(a + op + b, op) == Some((a, b))
  {
    SplitFirst(a, op, b);
    SplitNone(b, op);
  }

  lemma {:induction false} TwoCharOccurs(s: string, op: string, i: int)
    requires |op| == 2
    ensures OccursAt(s, op, i) <==> 0 <= i < |s| - 1 && s[i] == op[0] && s[i + 1] == op[1]
  {
    if 0 <= i < |s| - 1 {
      assert s[i..i + 2] == [s[i], s[i + 1]];
      assert op == [op[0], op[1]];
    }
  }

  /** With exactly one '=' in the part, "==" does not occur and "!=" occurs only across it. */
  lemma {:induction false} OneEqualsSign(f: string, v: string)
    requires '=' !in f && '=' !in v
    ensures Try(f + "=" + v, "=") == Some((f, v))
    ensures Try(f + "=" + v, "==") == None
    ensures Try(f + "=" + v, "!=").Some? <==> |f| > 0 && f[|f| - 1] == '!'
  {
    var s := f + "=" + v;
    SplitFirstChar(f, '=', v);
    NoCharSplit(v, '=');
    forall j ensures !OccursAt(s, "==", j) {
      TwoCharOccurs(s, "==", j);
    }
    SplitNone(s, "==");
    forall j ensures OccursAt(s, "!=", j) <==> j == |f| - 1 && |f| > 0 && f[j] == '!' {
      TwoCharOccurs(s, "!=", j);
    }
    if |f| > 0 && f[|f| - 1] == '!' {
      var a := f[..|f| - 1];
      assert s == a + "!=" + v;
      forall j ensures !OccursAt(v, "!=", j) {
        TwoCharOccurs(v, "!=", j);
      }
      TwoPartsConverse(a, "!=", v);
    } else {
      SplitNone(s, "!=");
    }
  }

  lemma {:induction false} EqualsPart(f: string, v: string)
    ensures ParsePart(f + "=" + v) == Some(Requirement(Equals, f, v)) <==>
              '=' !in f && '=' !in v && !(|f| > 0 && f[|f| - 1] == '!')
  {
    var s := f + "=" + v;
    if '=' !in f && '=' !in v {
      OneEqualsSign(f, v);
    }
    if ParsePart(s) == Some(Requirement(Equals, f, v)) {
      if Try(s, "==").Some? {
        TwoParts(s, "==");
        assert false;
      }
      assert Try(s, "=") == Some((f, v));
      PartsHaveNoSep(s, '=');
      assert Split(s, "=") == [f, v];
      assert f in [f, v] && v in [f, v];
    }
  }

  lemma {:induction false} NotEqualsPart(f: string, v: string)
    ensures ParsePart(f + "!=" + v) == Some(Requirement(NotEquals, f, v)) <==>
              !Contains(f, "!=") && !Contains(v, "!=")
  {
    var s := f + "!=" + v;
    forall j | 0 <= j < |f| ensures OccursAt(s, "!=", j) <==> OccursAt(f, "!=", j) {
      TwoCharOccurs(s, "!=", j);
      TwoCharOccurs(f, "!=", j);
    }
    if !Contains(f, "!=") && !Contains(v, "!=") {
      TwoPartsConverse(f, "!=", v);
    }
    if ParsePart(s) == Some(Requirement(NotEquals, f, v)) {
      TwoParts(s, "!=");
    }
  }

  lemma {:induction false} PartReadsBack(r: Requirement)
    requires ',' !in r.field && ',' !in r.value
    ensures ParsePart(Text(r)) == Some(r) <==> Printable(r)
  {
    match r.op
    case Equals =>
      assert r == Requirement(Equals, r.field, r.value);
      EqualsPart(r.field, r.value);
    case NotEquals =>
      assert r == Requirement(NotEquals, r.field, r.value);
      NotEqualsPart(r.field, r.value);
  }

  lemma {:induction false} TextHasNoComma(r: Requirement)
    requires ',' !in r.field && ',' !in r.value
    ensures ',' !in Text(r) && |Text(r)| > 0
  {
  }

  /** Whatever a part parses to spells that part again, up to "==" losing a character. */
  lemma {:induction false} PartSpelling(part: string)
    requires ParsePart(part).Some?
    ensures var r := ParsePart(part).value;
            || part == Text(r)
            || (r.op == Equals && part == r.field + "==" + r.value)
  {
    if Try(part, "!=").Some? { TwoParts(part, "!="); }
    else if Try(part, "==").Some? { TwoParts(part, "=="); }
    else { TwoParts(part, "="); }
  }

  /** Reading back never gains weight, and loses none exactly when nothing changed. */
  function Weight(r: Requirement): nat {
    2 * |r.field| + 2 * |r.value| + (match r.op case Equals => 2 case NotEquals => 3)
  }

  /** A part read through a lone '=' has no other '=', so the cut is unique and no "!=" was there. */
  lemma {:induction false} LoneEquals(part: string, q: Requirement)
    requires ParsePart(part) == Some(q) && q.op == Equals && part == Text(q)
    ensures '=' !in q.field && '=' !in q.value && !Try(part, "!=").Some?
  {
    if Try(part, "==").Some? {
      TwoParts(part, "==");
      assert false;
    }
    PartsHaveNoSep(part, '=');
    assert Split(part, "=") == [q.field, q.value];
    assert q.field in Split(part, "=") && q.value in Split(part, "=");
  }

  lemma {:induction false} EqualsReadAsEquals(r: Requirement, q: Requirement)
    requires r.op == Equals && q.op == Equals && Text(r) == Text(q) && ParsePart(Text(r)) == Some(q)
    ensures q == r
  {
    var part := Text(r);
    LoneEquals(part, q);
    assert part[|q.field|] == '=' && part[|r.field|] == '=';
    assert |q.field| == |r.field|;
    assert r.field == part[..|r.field|] == q.field;
    assert r.value == part[|r.field| + 1..] == q.value;
  }

  lemma {:induction false} NotEqualsReadAsEquals(r: Requirement, q: Requirement)
    requires r.op == NotEquals && q.op == Equals && ParsePart(Text(r)) == Some(q)
    ensures Text(r) != Text(q)
  {
    var part := Text(r);
    assert part[|r.field|] == '!' && part[|r.field| + 1] == '=';
    if part == Text(q) {
      LoneEquals(part, q);
      OneEqualsSign(q.field, q.value);
    }
  }

  lemma {:induction false} NotEqualsReadAsNotEquals(r: Requirement, q: Requirement)
    requires r.op == NotEquals && q.op == NotEquals && ParsePart(Text(r)) == Some(q)
    ensures q == r
  {
    var part := Text(r);
    PartSpelling(part);
    TwoParts(part, "!=");
    TwoCharOccurs(part, "!=", |r.field|);
    assert |q.field| <= |r.field|;
    if |q.field| < |r.field| {
      var j := |r.field| - |q.field| - 2;
      assert part[|r.field|] == '!' && part[|q.field| + 1] == '=';
      assert q.value == part[|q.field| + 2..];
      TwoCharOccurs(q.value, "!=", j);
      assert false;
    }
    assert r.field == part[..|r.field|] == q.field;
    assert r.value == part[|r.field| + 2..] == q.value;
  }

  lemma {:induction false} PartWeight(r: Requirement)
    requires ParsePart(Text(r)).Some?
    ensures Weight(ParsePart(Text(r)).value) <= Weight(r)
    ensures Weight(ParsePart(Text(r)).value) == Weight(r) ==> ParsePart(Text(r)).value == r
  {
    var q := ParsePart(Text(r)).value;
    PartSpelling(Text(r));
    match (r.op, q.op)
    case (Equals, Equals) => if Text(r) == Text(q) { EqualsReadAsEquals(r, q); }
    case (Equals, NotEquals) =>
    case (NotEquals, Equals) => NotEqualsReadAsEquals(r, q);
    case (NotEquals, NotEquals) => NotEqualsReadAsNotEquals(r, q);
  }

  // ----- lists of parts -----

  function NonBlank(parts: seq<string>): seq<string> {
    if |parts| == 0 then []
    else if parts[0] == "" then NonBlank(parts[1..])
    else [parts[0]] + NonBlank(parts[1..])
  }

  function Texts(rs: seq<Requirement>): (ss: seq<string>)
    ensures |ss| == |rs|
    ensures forall i :: 0 <= i < |rs| ==> ss[i] == Text(rs[i])
  {
    if |rs| == 0 then [] else [Text(rs[0])] + Texts(rs[1..])
  }

  lemma {:induction false} NonBlankConcat(a: seq<string>, b: seq<string>)
    ensures NonBlank(a + b) == NonBlank(a) + NonBlank(b)
  {
    if |a| == 0 {
      assert a + b == b;
    } else {
      assert (a + b)[1..] == a[1..] + b;
      NonBlankConcat(a[1..], b);
    }
  }

  lemma {:induction false} TextsConcat(a: seq<Requirement>, b: seq<Requirement>)
    ensures Texts(a + b) == Texts(a) + Texts(b)
  {
  }

  ghost predicate CommaFree(rs: seq<Requirement>) {
    forall r :: r in rs ==> ',' !in r.field && ',' !in r.value
  }

  /** The non-blank comma parts of a printed selector are its printed requirements, in order. */
  lemma {:induction false} PrintedParts(t: Selector)
    requires CommaFree(Requirements(t))
    ensures NonBlank(Split(Print(t), ",")) == Texts(Requirements(t))
    decreases t, 1
  {
    if t.And? {
      AllPrintedParts(t.terms);
    } else {
      var r := Requirements(t)[0];
      assert r in Requirements(t);
      TextHasNoComma(r);
      NoCharSplit(Print(t), ',');
    }
  }

  lemma {:induction false} AllPrintedParts(ts: seq<Selector>)
    requires CommaFree(AllRequirements(ts))
    ensures NonBlank(Split(Join(PrintAll(ts), ","), ",")) == Texts(AllRequirements(ts))
    decreases ts, 0
  {
    if |ts| == 0 {
      NoCharSplit("", ',');
    } else {
      var rest := Join(PrintAll(ts[1..]), ",");
      PrintedParts(ts[0]);
      AllPrintedParts(ts[1..]);
      TextsConcat(Requirements(ts[0]), AllRequirements(ts[1..]));
      assert PrintAll(ts)[1..] == PrintAll(ts[1..]);
      if |ts| == 1 {
        assert AllRequirements(ts) == Requirements(ts[0]);
      } else {
        SplitConcat(Print(ts[0]), ',', rest);
        NonBlankConcat(Split(Print(ts[0]), ","), Split(rest, ","));
      }
    }
  }

  lemma {:induction false} ParseSkipsBlanks(parts: seq<string>)
    ensures ParseParts(parts) == ParseParts(NonBlank(parts))
  {
    if |parts| > 0 {
      ParseSkipsBlanks(parts[1..]);
    }
  }

  lemma {:induction false} ParseConcat(a: seq<string>, b: seq<string>)
    ensures ParseParts(a + b) ==
              if ParseParts(a).Ok? && ParseParts(b).Ok? then Ok(ParseParts(a).value + ParseParts(b).value) else Err
  {
    if |a| == 0 {
      assert a + b == b;
      assert ParseParts(b).Ok? ==> [] + ParseParts(b).value == ParseParts(b).value;
    } else {
      assert (a + b)[1..] == a[1..] + b;
      ParseConcat(a[1..], b);
      var x, y := ParseParts(a[1..]), ParseParts(b);
      var r := ParsePart(a[0]);
      if a[0] != "" && r.Some? && x.Ok? && y.Ok? {
        assert [r.value] + (x.value + y.value) == ([r.value] + x.value) + y.value;
      }
    }
  }

  lemma {:induction false} ParseMiddle(b1: seq<string>, x: string, b2: seq<string>)
    ensures var m, rest := ParseParts([x]), ParseParts(b1 + b2);
            var whole := ParseParts(b1 + [x] + b2);
            && (whole.Ok? <==> m.Ok? && rest.Ok?)
            && (whole.Ok? ==> multiset(whole.value) == multiset(m.value) + multiset(rest.value))
  {
    ParseConcat(b1 + [x], b2);
    ParseConcat(b1, [x]);
    ParseConcat(b1, b2);
  }

  /** Whether a list of parts parses, and the multiset it parses to, do not depend on its order. */
  lemma {:induction false} ParsePermutation(a: seq<string>, b: seq<string>)
    requires multiset(a) == multiset(b)
    ensures ParseParts(a).Ok? <==> ParseParts(b).Ok?
    ensures ParseParts(a).Ok? ==> multiset(ParseParts(a).value) == multiset(ParseParts(b).value)
    decreases |a|
  {
    SameElements(a, b);
    if |a| > 0 {
      var b1, b2 := CutOut(a, b);
      ParsePermutation(a[1..], b1 + b2);
      ParseMiddle(b1, a[0], b2);
      ParseMiddle([], a[0], a[1..]);
      assert [] + [a[0]] + a[1..] == a && [] + a[1..] == a[1..];
    }
  }

  lemma {:induction false} TermsRequire(rs: seq<Requirement>)
    ensures AllRequirements(AsTerms(rs)) == rs
  {
    if |rs| > 0 {
      TermsRequire(rs[1..]);
      assert AsTerms(rs)[1..] == AsTerms(rs[1..]);
      assert Requirements(AsTerm(rs[0])) == [rs[0]];
      assert rs == [rs[0]] + rs[1..];
    }
  }

  lemma {:induction false} TermsKept(rs: seq<Requirement>)
    ensures TransformAll(AsTerms(rs), Identity) == Ok(AsTerms(rs))
  {
    if |rs| > 0 {
      TermsKept(rs[1..]);
      assert AsTerms(rs)[1..] == AsTerms(rs[1..]);
      assert Transform(AsTerm(rs[0]), Identity) == Ok(AsTerm(rs[0]));
    }
  }

  /** The identity transform leaves the parsed items alone, whatever their number. */
  lemma {:induction false} ParseSelectorItems(s: string)
    ensures var rs := ParseParts(Sort(Split(s, ",")));
            ParseSelector(s) == (if rs.Ok? then Ok(Combine(AsTerms(rs.value))) else Err)
    ensures ParseSelector(s).Ok? ==> Requirements(ParseSelector(s).value) == ParseParts(Sort(Split(s, ","))).value
  {
    var rs := ParseParts(Sort(Split(s, ",")));
    if rs.Ok? {
      TermsRequire(rs.value);
      TermsKept(rs.value);
      if |rs.value| == 1 {
        assert AsTerms(rs.value)[0] == AsTerm(rs.value[0]);
        assert rs.value == [rs.value[0]];
      }
    }
  }

  lemma {:induction false} ParseSelectorUnsorted(s: string)
    ensures ParseSelector(s).Ok? <==> ParseParts(Split(s, ",")).Ok?
    ensures ParseSelector(s).Ok? ==>
              multiset(Requirements(ParseSelector(s).value)) == multiset(ParseParts(Split(s, ",")).value)
  {
    ParseSelectorItems(s);
    SortSorts(Split(s, ","));
    ParsePermutation(Sort(Split(s, ",")), Split(s, ","));
  }

  // ----- the main results -----

  lemma {:induction false} ReadsBackAll(rs: seq<Requirement>)
    requires forall r :: r in rs ==> Printable(r)
    ensures ParseParts(Texts(rs)) == Ok(rs)
  {
    if |rs| > 0 {
      assert Printable(rs[0]);
      PartReadsBack(rs[0]);
      TextHasNoComma(rs[0]);
      ReadsBackAll(rs[1..]);
      assert Texts(rs)[1..] == Texts(rs[1..]);
      assert rs == [rs[0]] + rs[1..];
    }
  }

  lemma {:induction false} PartIsCommaFree(part: string)
    requires ParsePart(part).Some? && ',' !in part
    ensures CommaFree([ParsePart(part).value])
  {
    PartSpelling(part);
    var r := ParsePart(part).value;
    assert r.field == part[..|r.field|];
    assert r.value == part[|part| - |r.value|..];
  }

  lemma {:induction false} ParsedIsCommaFree(parts: seq<string>)
    requires ParseParts(parts).Ok?
    requires forall p :: p in parts ==> ',' !in p
    ensures CommaFree(ParseParts(parts).value)
  {
    if |parts| > 0 {
      ParsedIsCommaFree(parts[1..]);
      if parts[0] != "" {
        PartIsCommaFree(parts[0]);
      }
    }
  }

  function TotalWeight(rs: seq<Requirement>): nat {
    if |rs| == 0 then 0 else Weight(rs[0]) + TotalWeight(rs[1..])
  }

  lemma {:induction false} TotalWeightConcat(a: seq<Requirement>, b: seq<Requirement>)
    ensures TotalWeight(a + b) == TotalWeight(a) + TotalWeight(b)
  {
    if |a| == 0 {
      assert a + b == b;
    } else {
      assert (a + b)[1..] == a[1..] + b;
      TotalWeightConcat(a[1..], b);
    }
  }

  lemma {:induction false} TotalWeightPermutation(a: seq<Requirement>, b: seq<Requirement>)
    requires multiset(a) == multiset(b)
    ensures TotalWeight(a) == TotalWeight(b)
  {
    SameElements(a, b);
    if |a| > 0 {
      var b1, b2 := CutOut(a, b);
      TotalWeightPermutation(a[1..], b1 + b2);
      TotalWeightConcat(b1, [a[0]] + b2);
      TotalWeightConcat(b1, b2);
      assert ([a[0]] + b2)[1..] == b2;
      assert b == b1 + ([a[0]] + b2);
    }
  }

  /** Reading back a list of printed requirements without losing weight reads back each of them. */
  lemma {:induction false} NoWeightLost(rs: seq<Requirement>)
    requires ParseParts(Texts(rs)).Ok? && CommaFree(rs)
    ensures TotalWeight(ParseParts(Texts(rs)).value) <= TotalWeight(rs)
    ensures TotalWeight(ParseParts(Texts(rs)).value) == TotalWeight(rs) ==> forall r :: r in rs ==> Printable(r)
  {
    if |rs| > 0 {
      assert rs[0] in rs;
      PartReadsBack(rs[0]);
      TextHasNoComma(rs[0]);
      assert Texts(rs)[1..] == Texts(rs[1..]);
      var q := ParsePart(Text(rs[0]));
      var qs := ParseParts(Texts(rs[1..]));
      assert ParseParts(Texts(rs)) == Ok([q.value] + qs.value);
      assert ([q.value] + qs.value)[1..] == qs.value;
      PartWeight(rs[0]);
      NoWeightLost(rs[1..]);
    }
  }

  ghost predicate ReadsBack(t: Selector) {
    var p := ParseSelector(Print(t));
    p.Ok? && multiset(Requirements(p.value)) == multiset(Requirements(t))
  }

  /** What the parser gives for a printed selector without stray commas. */
  lemma {:induction false} ParsePrinted(t: Selector)
    requires CommaFree(Requirements(t))
    ensures ParseParts(Split(Print(t), ",")) == ParseParts(Texts(Requirements(t)))
  {
    PrintedParts(t);
    ParseSkipsBlanks(Split(Print(t), ","));
  }

  lemma {:induction false} PrintableReadsBack(t: Selector)
    requires forall r :: r in Requirements(t) ==> Printable(r)
    ensures ReadsBack(t)
  {
    ParseSelectorUnsorted(Print(t));
    ParsePrinted(t);
    ReadsBackAll(Requirements(t));
  }

  lemma {:induction false} ReadsBackIsCommaFree(t: Selector)
    requires ReadsBack(t)
    ensures CommaFree(Requirements(t))
  {
    var parts := Split(Print(t), ",");
    ParseSelectorUnsorted(Print(t));
    PartsHaveNoSep(Print(t), ',');
    ParsedIsCommaFree(parts);
    SameElements(ParseParts(parts).value, Requirements(t));
  }

  lemma {:induction false} ReadsBackIsPrintable(t: Selector)
    requires ReadsBack(t)
    ensures forall r :: r in Requirements(t) ==> Printable(r)
  {
    var rs := Requirements(t);
    ReadsBackIsCommaFree(t);
    ParseSelectorUnsorted(Print(t));
    ParsePrinted(t);
    TotalWeightPermutation(ParseParts(Texts(rs)).value, rs);
    NoWeightLost(rs);
  }

  /** Parsing a printed selector gives back its requirements exactly when each of them is printable. */
  lemma {:induction false} RoundTripIffPrintable(t: Selector)
    ensures ReadsBack(t) <==> forall r :: r in Requirements(t) ==> Printable(r)
  {
    if ReadsBack(t) {
      ReadsBackIsPrintable(t);
    }
    if forall r :: r in Requirements(t) ==> Printable(r) {
      PrintableReadsBack(t);
    }
  }

  lemma {:induction false} SameRequirementsSameMeaning(a: Selector, b: Selector, ls: Fields)
    requires multiset(Requirements(a)) == multiset(Requirements(b))
    ensures Matches(a, ls) == Matches(b, ls)
  {
    MatchesIsConjunction(a, ls);
    MatchesIsConjunction(b, ls);
    var ra, rb := Requirements(a), Requirements(b);
    assert forall r :: r in ra <==> r in multiset(ra);
    assert forall r :: r in rb <==> r in multiset(rb);
  }

  /** A printable selector, printed and parsed, matches exactly the fields it matched before. */
  lemma {:induction false} RoundTripMeaning(t: Selector, ls: Fields)
    requires forall r :: r in Requirements(t) ==> Printable(r)
    ensures ParseSelector(Print(t)).Ok?
    ensures Matches(ParseSelector(Print(t)).value, ls) == Matches(t, ls)
  {
    RoundTripIffPrintable(t);
    SameRequirementsSameMeaning(ParseSelector(Print(t)).value, t, ls);
  }

  lemma {:induction false} OnePart(s: string)
    requires s != "" && ',' !in s
    ensures ParseSelector(s) ==
              (match ParsePart(s) case Some(r) => Ok(AsTerm(r)) case None => Err)
  {
    NoCharSplit(s, ',');
    ParseSelectorItems(s);
    assert Insert(s, []) == [s];
    assert Sort([s]) == Insert(s, Sort([s][1..])) == [s];
    assert ParseParts([s][1..]) == Ok([]);
    if ParsePart(s).Some? {
      assert ParseParts([s]) == Ok([ParsePart(s).value]);
    }
  }

  ghost predicate Plain(s: string) {
    '=' !in s && '!' !in s && ',' !in s
  }

  lemma {:induction false} ReadsDoubleEquals(a: string, b: string, c: string)
    requires Plain(a) && Plain(b) && Plain(c) && b != ""
    ensures ParsePart(a + "==" + b + "=" + c) == Some(Requirement(Equals, a, b + "=" + c))
  {
    var s, v := a + "==" + b + "=" + c, b + "=" + c;
    assert s == a + "==" + v;
    forall j ensures !OccursAt(s, "!=", j) {
      TwoCharOccurs(s, "!=", j);
    }
    SplitNone(s, "!=");
    forall j ensures 0 <= j < |a| ==> !OccursAt(s, "==", j)
            ensures !OccursAt(v, "==", j)
    {
      TwoCharOccurs(s, "==", j);
      TwoCharOccurs(v, "==", j);
    }
    TwoPartsConverse(a, "==", v);
  }

  lemma {:induction false} RejectsTwoEqualsSigns(a: string, b: string, c: string)
    requires Plain(a) && Plain(b) && Plain(c) && b != ""
    ensures ParsePart(a + "=" + b + "=" + c) == None
  {
    var s, v := a + "=" + b + "=" + c, b + "=" + c;
    assert s == a + "=" + v;
    forall j ensures !OccursAt(s, "!=", j) && !OccursAt(s, "==", j) {
      TwoCharOccurs(s, "!=", j);
      TwoCharOccurs(s, "==", j);
    }
    SplitNone(s, "!=");
    SplitNone(s, "==");
    SplitFirstChar(a, '=', v);
    SplitFirstChar(b, '=', c);
    NoCharSplit(c, '=');
  }

  lemma {:induction false} AcceptsDoubleEquals(a: string, b: string, c: string, s: string)
    requires Plain(a) && Plain(b) && Plain(c) && b != ""
    requires s == a + "==" + b + "=" + c
    ensures ParseSelector(s) == Ok(Has(a, b + "=" + c))
  {
    ReadsDoubleEquals(a, b, c);
    assert ',' !in s;
    OnePart(s);
  }

  lemma {:induction false} RejectsItsPrint(a: string, b: string, c: string, p: string)
    requires Plain(a) && Plain(b) && Plain(c) && b != ""
    requires p == a + "=" + b + "=" + c
    ensures ParseSelector(p) == Err
  {
    RejectsTwoEqualsSigns(a, b, c);
    assert ',' !in p;
    OnePart(p);
  }

  /**
   The parser accepts "a==b=c", but the term it makes prints as "a=b=c", which it rejects:
   for every a, b, c without '=', '!' and ',' (b not empty), so also for those three letters.
   */
  lemma {:induction false} AcceptedButNotReadBack(a: string, b: string, c: string, s: string, t: Selector)
    requires Plain(a) && Plain(b) && Plain(c) && b != ""
    requires s == a + "==" + b + "=" + c && t == Has(a, b + "=" + c)
    ensures ParseSelector(s) == Ok(t) && ParseSelector(Print(t)) == Err
  {
    AcceptsDoubleEquals(a, b, c, s);
    assert Print(t) == a + "=" + b + "=" + c;
    RejectsItsPrint(a, b, c, Print(t));
  }

  /** Permuting the comma parts of the input gives the identical selector or error, under any transform. */
  lemma {:induction false} ParseIgnoresPartOrder(ps: seq<string>, qs: seq<string>, fn: TransformFunc)
    requires multiset(ps) == multiset(qs)
    requires forall p :: p in ps ==> ',' !in p
    ensures Parse(Join(ps, ","), fn) == Parse(Join(qs, ","), fn)
  {
    SameElements(ps, qs);
    if |ps| > 0 {
      SplitJoin(ps, ',');
      SplitJoin(qs, ',');
      SortPermutation(ps, qs);
    }
  }

  /** ParseAndTransformSelector is ParseSelector followed by Transform. */
  lemma {:induction false} ParseThenTransform(s: string, fn: TransformFunc)
    ensures Parse(s, fn) == (match ParseSelector(s) case Ok(t) => Transform(t, fn) case Err => Err)
  {
    ParseSelectorItems(s);
  }
}
