/**
 When a selector keeps its meaning through printing and parsing (pkg/fields/selector.go), even if it does not
 keep its terms. What a conjunction of terms entails can be read off the terms.
 */
module FieldSelectorMeaning {
  import opened Permutations
  import opened Strings
  import opened Wrappers
  import opened FieldSelector
  import opened FieldSelectorRoundTrip

  // ----- what requirements entail -----

  predicate Clash(a: Requirement, b: Requirement) {
    && a.op == Equals && a.field == b.field
    && (if b.op == Equals then a.value != b.value else a.value == b.value)
  }

  /** Two of the requirements can never hold together. */
  ghost predicate Contradictory(rs: seq<Requirement>) {
    exists a, b :: a in rs && b in rs && Clash(a, b)
  }

  /** The requirement is there, or follows from another value being required of its field. */
  ghost predicate Follows(rs: seq<Requirement>, r: Requirement) {
    || Contradictory(rs)
    || r in rs
    || (r.op == NotEquals && exists a :: a in rs && a.op == Equals && a.field == r.field && a.value != r.value)
  }

  predicate Holds(r: Requirement, ls: Fields) {
    Matches(AsTerm(r), ls)
  }

  ghost predicate Entails(rs: seq<Requirement>, r: Requirement) {
    forall ls: Fields :: Meets(rs, ls) ==> Holds(r, ls)
  }

  /** A text longer than any value in the list. */
  function Longer(rs: seq<Requirement>): (s: string)
    ensures forall r :: r in rs ==> |r.value| < |s|
  {
    if |rs| == 0 then "x"
    else
      var s := Longer(rs[1..]);
      assert rs == [rs[0]] + rs[1..];
      if |rs[0].value| < |s| then s else rs[0].value + "x"
  }

  ghost predicate Fixed(rs: seq<Requirement>, f: string) {
    exists v :: Requirement(Equals, f, v) in rs
  }

  ghost function FixedValue(rs: seq<Requirement>, f: string): (v: string)
    requires Fixed(rs, f)
    ensures Requirement(Equals, f, v) in rs
  {
    var v :| Requirement(Equals, f, v) in rs;
    v
  }

  /** Required values where there are any, and `other` everywhere else. */
  ghost function Sample(rs: seq<Requirement>, other: Fields): Fields {
    (f: string) => if Fixed(rs, f) then FixedValue(rs, f) else other(f)
  }

  lemma {:induction false} SampleMeets(rs: seq<Requirement>, other: Fields)
    requires !Contradictory(rs)
    requires forall r :: r in rs && r.op == NotEquals && !Fixed(rs, r.field) ==> other(r.field) != r.value
    ensures Meets(rs, Sample(rs, other))
    ensures forall f, v :: Requirement(Equals, f, v) in rs ==> Sample(rs, other)(f) == v
    ensures forall f :: !Fixed(rs, f) ==> Sample(rs, other)(f) == other(f)
  {
    var ls := Sample(rs, other);
    forall f, v | Requirement(Equals, f, v) in rs ensures ls(f) == v {
      assert Fixed(rs, f);
      var w := ls(f);
      assert w == FixedValue(rs, f);
      assert Requirement(Equals, f, w) in rs;
      assert !Clash(Requirement(Equals, f, v), Requirement(Equals, f, w));
    }
    forall r | r in rs ensures Holds(r, ls) {
      if r.op == Equals {
        assert r == Requirement(Equals, r.field, r.value);
      } else if Fixed(rs, r.field) {
        var a := Requirement(Equals, r.field, ls(r.field));
        assert a in rs && !Clash(a, r);
      }
    }
  }

  lemma {:induction false} FollowsIsEntailed(rs: seq<Requirement>, r: Requirement)
    requires Follows(rs, r)
    ensures Entails(rs, r)
  {
    forall ls: Fields | Meets(rs, ls) ensures Holds(r, ls) {
      if a, b :| a in rs && b in rs && Clash(a, b) {
        assert Matches(AsTerm(a), ls) && Matches(AsTerm(b), ls);
      } else if r in rs {
        assert Matches(AsTerm(r), ls);
      } else {
        var a :| a in rs && a.op == Equals && a.field == r.field && a.value != r.value;
        assert Matches(AsTerm(a), ls);
      }
    }
  }

  lemma {:induction false} EntailedFollows(rs: seq<Requirement>, r: Requirement)
    requires !Follows(rs, r)
    ensures !Entails(rs, r)
  {
    var long := Longer(rs + [r]);
    assert r in rs + [r] && forall q :: q in rs ==> q in rs + [r];
    var other := (f: string) => if r.op == NotEquals && f == r.field then r.value else long;
    forall q | q in rs && q.op == NotEquals && !Fixed(rs, q.field) ensures other(q.field) != q.value {
      assert q != r;
    }
    SampleMeets(rs, other);
    var ls := Sample(rs, other);
    if Fixed(rs, r.field) {
      var v :| Requirement(Equals, r.field, v) in rs;
      assert ls(r.field) == v;
      assert r.op == Equals ==> r != Requirement(Equals, r.field, v);
    }
    assert !Holds(r, ls);
  }

  ghost predicate AllFollow(rs: seq<Requirement>, qs: seq<Requirement>) {
    forall q :: q in qs ==> Follows(rs, q)
  }

  ghost predicate SameConstraints(xs: seq<Requirement>, ys: seq<Requirement>) {
    AllFollow(xs, ys) && AllFollow(ys, xs)
  }

  /** Whatever the one matches, the other matches. */
  ghost predicate AtMost(a: Selector, b: Selector) {
    forall ls: Fields :: Matches(a, ls) ==> Matches(b, ls)
  }

  ghost predicate SameMatches(a: Selector, b: Selector) {
    AtMost(a, b) && AtMost(b, a)
  }

  lemma {:induction false} AtMostFollows(a: Selector, b: Selector, r: Requirement)
    requires AtMost(a, b) && r in Requirements(b)
    ensures Follows(Requirements(a), r)
  {
    if !Follows(Requirements(a), r) {
      EntailedFollows(Requirements(a), r);
      var ls: Fields :| Meets(Requirements(a), ls) && !Holds(r, ls);
      MatchesIsConjunction(a, ls);
      MatchesIsConjunction(b, ls);
    }
  }

  lemma {:induction false} FollowsAtMost(a: Selector, b: Selector)
    requires AllFollow(Requirements(a), Requirements(b))
    ensures AtMost(a, b)
  {
    forall ls: Fields | Matches(a, ls) ensures Matches(b, ls) {
      MatchesIsConjunction(a, ls);
      MatchesIsConjunction(b, ls);
      forall r | r in Requirements(b) ensures Holds(r, ls) {
        FollowsIsEntailed(Requirements(a), r);
      }
    }
  }

  lemma {:induction false} AtMostIff(a: Selector, b: Selector)
    ensures AtMost(a, b) <==> AllFollow(Requirements(a), Requirements(b))
  {
    if AtMost(a, b) {
      forall r | r in Requirements(b) ensures Follows(Requirements(a), r) {
        AtMostFollows(a, b, r);
      }
    }
    if AllFollow(Requirements(a), Requirements(b)) {
      FollowsAtMost(a, b);
    }
  }

  /** Two selectors match the same fields exactly when the requirements of each follow from those of the other. */
  lemma {:induction false} SameMatchesIffSameConstraints(a: Selector, b: Selector)
    ensures SameMatches(a, b) <==> SameConstraints(Requirements(a), Requirements(b))
  {
    AtMostIff(a, b);
    AtMostIff(b, a);
  }

  // ----- printing and parsing -----

  ghost predicate KeepsMeaning(t: Selector) {
    ParseSelector(Print(t)).Ok? && SameMatches(ParseSelector(Print(t)).value, t)
  }

  /**
   Exactly when the printed and reparsed selector matches the same fields: its text parses, and the
   requirements read from the text and the original ones follow from each other.
   */
  lemma {:induction false} KeepsMeaningIff(t: Selector)
    ensures var read := ParseParts(Split(Print(t), ","));
            KeepsMeaning(t) <==> read.Ok? && SameConstraints(read.value, Requirements(t))
  {
    ParseSelectorUnsorted(Print(t));
    if ParseSelector(Print(t)).Ok? {
      var p, read := ParseSelector(Print(t)).value, ParseParts(Split(Print(t), ",")).value;
      SameMatchesIffSameConstraints(p, t);
      SameElements(Requirements(p), read);
      forall r ensures Follows(Requirements(p), r) <==> Follows(read, r) {
        SameFollows(Requirements(p), read, r);
      }
    }
  }

  lemma {:induction false} SameFollows(xs: seq<Requirement>, ys: seq<Requirement>, r: Requirement)
    requires forall q :: q in xs <==> q in ys
    ensures Follows(xs, r) <==> Follows(ys, r)
  {
  }

  lemma {:induction false} OneFollows(r: Requirement, q: Requirement)
    ensures !Contradictory([r])
    ensures Follows([r], q) <==> q == r || (q.op == NotEquals && r.op == Equals && q.field == r.field && q.value != r.value)
  {
    assert forall a :: a in [r] <==> a == r;
  }

  lemma {:induction false} OneReadBack(r: Requirement, rs: seq<Requirement>)
    requires SameConstraints(rs, [r])
    ensures r in rs
  {
    assert r in [r] && Follows(rs, r);
    forall q | q in rs
      ensures q == r || (q.op == NotEquals && r.op == Equals && q.field == r.field && q.value != r.value)
    {
      OneFollows(r, q);
    }
  }

  lemma {:induction false} ParseOne(s: string)
    requires s != "" && ParsePart(s).Some?
    ensures ParseParts([s]) == Ok([ParsePart(s).value])
  {
    var r := ParsePart(s).value;
    assert [s][1..] == [];
    assert ParseParts([]) == Ok([]) && [r] + [] == [r];
  }

  /** A single term keeps its meaning exactly when it is printable. */
  lemma {:induction false} OneTermKeepsMeaningIff(r: Requirement)
    ensures KeepsMeaning(AsTerm(r)) <==> Printable(r)
  {
    var t := AsTerm(r);
    assert Requirements(t) == [r];
    if Printable(r) {
      RoundTripIffPrintable(t);
      forall ls: Fields ensures Matches(ParseSelector(Print(t)).value, ls) == Matches(t, ls) {
        RoundTripMeaning(t, ls);
      }
    }
    if KeepsMeaning(t) {
      KeepsMeaningIff(t);
      var parts := Split(Print(t), ",");
      OneReadBack(r, ParseParts(parts).value);
      PartsHaveNoSep(Print(t), ',');
      ParsedIsCommaFree(parts);
      TextHasNoComma(r);
      NoCharSplit(Print(t), ',');
      assert ParseParts([Text(r)][1..]) == Ok([]);
      ParseOne(Text(r));
      PartReadsBack(r);
    }
  }

  lemma {:induction false} Pieces(x: string, v: string, w: string, a: string, b: string)
    requires Plain(x) && Plain(v) && Plain(w) && Plain(a) && Plain(b)
    ensures ParsePart(x + "=" + v) == Some(Requirement(Equals, x, v))
    ensures ParsePart(x + "=" + w) == Some(Requirement(Equals, x, w))
    ensures ParsePart(a + "!" + "=" + b) == Some(Requirement(NotEquals, a, b))
  {
    EqualsPart(x, v);
    EqualsPart(x, w);
    assert a + "!" + "=" + b == a + "!=" + b;
    forall j ensures !OccursAt(a, "!=", j) && !OccursAt(b, "!=", j) {
      TwoCharOccurs(a, "!=", j);
      TwoCharOccurs(b, "!=", j);
    }
    NotEqualsPart(a, b);
  }

  /**
   In a conjunction an unprintable term may do no harm: x=v, x=w and the term `a!` = b, which is read back as
   a != b, match nothing before and after.
   */
  lemma {:induction false} UnprintableKeepsMeaning(x: string, v: string, w: string, a: string, b: string)
    requires Plain(x) && Plain(v) && Plain(w) && Plain(a) && Plain(b) && v != w
    ensures var bad := Requirement(Equals, a + "!", b);
            var t := And([Has(x, v), Has(x, w), AsTerm(bad)]);
            bad in Requirements(t) && !Printable(bad) && KeepsMeaning(t)
  {
    var rs := ThreeTerms(x, v, w, a, b);
    var t := And([Has(x, v), Has(x, w), AsTerm(rs[2])]);
    ThreeRequired(t, rs);
    assert rs[2] in rs;
    EndsInBang(a, b);
    ThreeCommaFree(x, v, w, a, b);
    var read := PiecesRead(x, v, w, a, b);
    ContradictionKept(t, rs, read);
  }

  function ThreeTerms(x: string, v: string, w: string, a: string, b: string): seq<Requirement> {
    [Requirement(Equals, x, v), Requirement(Equals, x, w), Requirement(Equals, a + "!", b)]
  }

  lemma {:induction false} ThreeRequired(t: Selector, rs: seq<Requirement>)
    requires |rs| == 3 && t == And([AsTerm(rs[0]), AsTerm(rs[1]), AsTerm(rs[2])])
    ensures Requirements(t) == rs
  {
    TermsRequire(rs);
    assert t == And(AsTerms(rs));
  }

  lemma {:induction false} EndsInBang(a: string, b: string)
    ensures !Printable(Requirement(Equals, a + "!", b))
  {
    assert (a + "!")[|a|] == '!';
  }

  lemma {:induction false} ThreeCommaFree(x: string, v: string, w: string, a: string, b: string)
    requires Plain(x) && Plain(v) && Plain(w) && Plain(a) && Plain(b)
    ensures CommaFree(ThreeTerms(x, v, w, a, b))
  {
    assert ',' !in a + "!";
  }

  lemma {:induction false} PiecesRead(x: string, v: string, w: string, a: string, b: string) returns (read: seq<Requirement>)
    requires Plain(x) && Plain(v) && Plain(w) && Plain(a) && Plain(b)
    ensures var rs := ThreeTerms(x, v, w, a, b);
            ParseParts(Texts(rs)) == Ok(read) && |read| == 3 && read[..2] == rs[..2]
  {
    var rs := ThreeTerms(x, v, w, a, b);
    read := [Requirement(Equals, x, v), Requirement(Equals, x, w), Requirement(NotEquals, a, b)];
    Pieces(x, v, w, a, b);
    ReadThree(rs, read);
  }

  lemma {:induction false} ContradictionKept(t: Selector, rs: seq<Requirement>, read: seq<Requirement>)
    requires Requirements(t) == rs && CommaFree(rs) && ParseParts(Texts(rs)) == Ok(read)
    requires |rs| >= 2 && |read| >= 2 && read[..2] == rs[..2] && Clash(rs[0], rs[1])
    ensures KeepsMeaning(t)
  {
    ParsePrinted(t);
    assert read[0] == read[..2][0] && read[1] == read[..2][1];
    BothContradictory(rs, read);
    KeepsMeaningIff(t);
  }

  lemma {:induction false} BothContradictory(xs: seq<Requirement>, ys: seq<Requirement>)
    requires |xs| >= 2 && |ys| >= 2 && Clash(xs[0], xs[1]) && Clash(ys[0], ys[1])
    ensures SameConstraints(ys, xs)
  {
    assert xs[0] in xs && xs[1] in xs && ys[0] in ys && ys[1] in ys;
  }

  lemma {:induction false} ReadThree(rs: seq<Requirement>, read: seq<Requirement>)
    requires |rs| == |read| == 3
    requires forall i :: 0 <= i < 3 ==> |Text(rs[i])| > 0 && ParsePart(Text(rs[i])) == Some(read[i])
    ensures ParseParts(Texts(rs)) == Ok(read)
  {
    var ts := Texts(rs);
    ParseOne(ts[0]);
    ParseOne(ts[1]);
    ParseOne(ts[2]);
    ParseConcat([ts[0]], [ts[1]]);
    ParseConcat([ts[0]] + [ts[1]], [ts[2]]);
    assert ts == [ts[0]] + [ts[1]] + [ts[2]];
    assert read == [read[0]] + [read[1]] + [read[2]];
  }
}
