/**
 The analytics block at the end of a document (cmd/mungedocs/analytics.go): remove the old block, drop
 stray links, append an empty block, fill it. Running it a second time should change nothing.
 */
module Analytics {
  import opened Strings
  import opened Wrappers
  import opened LineScan
  import opened MungeDocs

  const Token: string := "GENERATED_ANALYTICS"
  const LinkPrefix: string := "[![Analytics](https://" + "kubernetes-site.appspot.com/" + "UA-36037335-10/GitHub/"

  function Link(fileName: string): string {
    LinkPrefix + fileName + "?pixel)]()"
  }

  function InsertFor(fileName: string): seq<Line> {
    Scan(SplitLines(Link(fileName)), false)
  }

  predicate Keeps(l: Line) {
    l.preformatted || l.header || l.beginTag || l.endTag || !HasPrefix(l.data, LinkPrefix)
  }

  /** Drop the links outside the block. */
  function Filter(lines: seq<Line>): seq<Line> {
    FilterBy(Keeps, lines)
  }

  function Analyze(insert: seq<Line>, lines: seq<Line>): Result<seq<Line>> {
    match Remove(Token, lines, false)
    case Err => Err
    case Ok(rest) => Update(Token, Append(Token, Filter(rest)), insert, false)
  }

  method DropStrayLinks(lines: seq<Line>) returns (out: seq<Line>)
    ensures out == Filter(lines)
  {
    out := [];
    assert lines[0..] == lines;
    for i := 0 to |lines|
      invariant out + FilterBy(Keeps, lines[i..]) == FilterBy(Keeps, lines)
    {
      FilterStep(Keeps, lines, i, out);
      var l := lines[i];
      if l.preformatted || l.header || l.beginTag || l.endTag {
        out := out + [l];
        continue;
      }
      if HasPrefix(l.data, LinkPrefix) {
        assert out + [] == out;
        continue;
      }
      out := out + [l];
    }
    assert out + [] == out;
  }

  /** updateAnalytics; relativeName is what makeRepoRelative gave. */
  method UpdateAnalytics(relativeName: Result<string>, lines: seq<Line>) returns (r: Result<seq<Line>>)
    ensures r == match relativeName
                 case Err => Err
                 case Ok(name) => Analyze(InsertFor(name), lines)
  {
    if relativeName.Err? {
      return Err;
    }
    var insert := GetMungeLines(Link(relativeName.value));
    var removed := RemoveMacroBlock(Token, lines);
    if removed.Err? {
      return Err;
    }
    var out := DropStrayLinks(removed.value);
    r := UpdateMacroBlock(Token, Append(Token, out), insert);
  }

  // ----- filtering -----

  /** The line is an analytics link on its own, outside code, headers and marks. */
  predicate StrayLink(l: Line) {
    && !l.preformatted && !l.header && !l.beginTag && !l.endTag
    && HasPrefix(l.data, "[![Analytics](https://" + "kubernetes-site.appspot.com/" + "UA-36037335-10/GitHub/")
  }

  /** Exactly the stray links are dropped; every other line stays, as often as it was there. */
  lemma {:induction false} OnlyStrayLinksGo(lines: seq<Line>, l: Line)
    ensures multiset(Filter(lines))[l] == if StrayLink(l) then 0 else multiset(lines)[l]
  {
    if |lines| > 0 {
      OnlyStrayLinksGo(lines[1..], l);
      assert lines == [lines[0]] + lines[1..];
    }
  }

  ghost predicate AllKept(lines: seq<Line>) {
    forall l :: l in lines ==> Keeps(l)
  }

  lemma {:induction false} LinkText(fileName: string)
    ensures Link(fileName) ==
            "[![Analytics](https://" + "kubernetes-site.appspot.com/" + "UA-36037335-10/GitHub/" + fileName + "?pixel)]()"
  {
  }

  // ----- the shape of the result -----

  function Block(insert: seq<Line>): seq<Line> {
    [NewLine(BeginMark(Token))] + insert + [NewLine(EndMark(Token))]
  }

  /** The document without the block: what was kept, and a blank line if it does not end in one. */
  function Body(lines: seq<Line>): seq<Line> {
    Filter(lines) + Separator(Filter(lines))
  }

  /** A blank line stands before the block unless nothing does, and it is added only where there was none. */
  lemma {:induction false} BlankBeforeBlock(lines: seq<Line>)
    ensures |Body(lines)| > 0 ==> Body(lines)[|Body(lines)| - 1].data == ""
    ensures Body(lines) == Filter(lines) || Body(lines) == Filter(lines) + [NewLine("")]
    ensures Filter(lines) == [] || Filter(lines)[|Filter(lines)| - 1].data == "" ==> Body(lines) == Filter(lines)
  {
  }

  lemma {:induction false} MarksAreMarks(token: string)
    ensures IsBegin(token, NewLine(BeginMark(token))) && IsEnd(token, NewLine(EndMark(token)))
    ensures !IsBegin(token, NewLine(EndMark(token))) && !IsEnd(token, NewLine(BeginMark(token)))
  {
    var b, e := BeginMark(token), EndMark(token);
    assert b[..|BeginText|] == BeginText && e[..|EndText|] == EndText;
    assert OccursAt(b, BeginText, 0) && OccursAt(e, EndText, 0);
    assert b[5] == BeginText[5] && e[5] == EndText[5];
  }

  lemma {:induction false} BlankIsPlain(token: string)
    ensures !IsBegin(token, Blank) && !IsEnd(token, Blank) && Keeps(Blank)
  {
    assert |BeginMark(token)| > 0 && |EndMark(token)| > 0;
  }

  lemma {:induction false} BodyIsStable(rest: seq<Line>)
    requires Unmarked(Token, rest)
    ensures Unmarked(Token, Body(rest)) && AllKept(Body(rest)) && Separator(Body(rest)) == []
  {
    FilterSelects(Keeps, rest);
    BlankIsPlain(Token);
  }

  /** Whenever the old blocks can be removed the whole pass succeeds, and this is its result. */
  lemma {:induction false} AnalyzeShape(insert: seq<Line>, lines: seq<Line>)
    ensures Analyze(insert, lines) == match Remove(Token, lines, false)
                                      case Err => Err
                                      case Ok(rest) => Ok(Body(rest) + Block(insert))
  {
    if Remove(Token, lines, false).Ok? {
      var rest := Remove(Token, lines, false).value;
      RemoveUnmarks(Token, lines, false);
      BodyIsStable(rest);
      var marks := [NewLine(BeginMark(Token)), NewLine(EndMark(Token))];
      UpdateSkipsUnmarked(Token, Body(rest), marks, insert);
      UpdateEmptyBlock(insert);
    }
  }

  lemma {:induction false} UpdateEmptyBlock(insert: seq<Line>)
    ensures Update(Token, [NewLine(BeginMark(Token)), NewLine(EndMark(Token))], insert, false) == Ok(Block(insert))
  {
    var b, e := NewLine(BeginMark(Token)), NewLine(EndMark(Token));
    MarksAreMarks(Token);
    assert Update(Token, [e], insert, true) == Ok(insert + [e]) by {
      assert [e][1..] == [] && insert + [e] + [] == insert + [e];
      assert Update(Token, [], insert, false) == Ok([]);
    }
    assert [b, e][1..] == [e];
    assert [b] + (insert + [e]) == Block(insert);
  }

  // ----- running it again on the lines -----

  /** What the next run would keep of the block this one writes. */
  function Leftover(insert: seq<Line>): Result<seq<Line>> {
    match Remove(Token, Block(insert), false)
    case Err => Err
    case Ok(kept) => Ok(Filter(kept))
  }

  /** A second run changes nothing exactly when the written block removes itself without a trace. */
  lemma {:induction false} SecondRunIff(insert: seq<Line>, lines: seq<Line>, out: seq<Line>)
    requires Analyze(insert, lines) == Ok(out)
    ensures Analyze(insert, out) == Ok(out) <==> Leftover(insert) == Ok([])
  {
    AnalyzeShape(insert, lines);
    RemoveUnmarks(Token, lines, false);
    var body := Body(Remove(Token, lines, false).value);
    BodyIsStable(Remove(Token, lines, false).value);
    RemoveSkipsUnmarked(Token, body, Block(insert));
    AnalyzeShape(insert, out);
    if Remove(Token, Block(insert), false).Ok? {
      var kept := Remove(Token, Block(insert), false).value;
      FilterConcat(Keeps, body, kept);
      FilterAll(Keeps, body);
      assert Analyze(insert, out).value == body + Filter(kept) + Separator(body + Filter(kept)) + Block(insert);
      if Filter(kept) == [] {
        assert body + Filter(kept) == body;
        assert body + [] == body;
      }
    }
  }

  lemma {:induction false} PrefixIsPlain()
    ensures |LinkPrefix| > 0 && LinkPrefix[0] == '[' && '\n' !in LinkPrefix
  {
    var a, b, c := "[![Analytics](https://", "kubernetes-site.appspot.com/", "UA-36037335-10/GitHub/";
    assert LinkPrefix == a + b + c;
    assert '\n' !in a && '\n' !in b && '\n' !in c;
  }

  lemma {:induction false} MarksArePlain()
    ensures BeginMark(Token)[0] == '<' && EndMark(Token)[0] == '<'
    ensures '\n' !in BeginMark(Token) && '\n' !in EndMark(Token)
  {
    assert Token == "GENERATED_ANALYTICS";
    assert BeginText == "<!-- BEGIN MUNGE:" && EndText == "<!-- END MUNGE:";
  }

  lemma {:induction false} LinkIsPlain(fileName: string)
    requires '\n' !in fileName
    ensures '\n' !in Link(fileName) && |Link(fileName)| > 0 && Link(fileName)[0] == '['
  {
    PrefixIsPlain();
    var tail := "?pixel)]()";
    assert '\n' !in tail;
  }

  lemma {:induction false} NotFence(s: string)
    requires |s| > 0 && s[0] in {'[', '<'}
    ensures !IsFence(s)
  {
    assert SkipSpace(s) == s;
  }

  lemma {:induction false} LinkLine(fileName: string)
    requires '\n' !in fileName
    ensures !IsBegin(Token, NewLine(Link(fileName))) && !IsEnd(Token, NewLine(Link(fileName)))
    ensures SplitLines(Link(fileName)) == [Link(fileName)]
    ensures InsertFor(fileName) == [NewLine(Link(fileName))]
  {
    var s := Link(fileName);
    LinkIsPlain(fileName);
    MarksArePlain();
    NoCharSplit(s, '\n');
    NotFence(s);
    assert [s][1..] == [];
    assert Scan([], false) == [];
  }

  lemma {:induction false} PlainInsertLeavesNothing(l: Line)
    requires !l.preformatted && !IsBegin(Token, l) && !IsEnd(Token, l)
    ensures Remove(Token, Block([l]), false) == Ok([]) && Leftover([l]) == Ok([])
  {
    MarksAreMarks(Token);
    var b, e := NewLine(BeginMark(Token)), NewLine(EndMark(Token));
    assert Block([l]) == [b, l, e];
    assert [b, l, e][1..] == [l, e] && [l, e][1..] == [e] && [e][1..] == [];
    assert Remove(Token, [], false) == Ok([]);
    assert Remove(Token, [e], true) == Ok([]);
    assert Remove(Token, [l, e], true) == Ok([]);
  }

  /** A file name on one line leaves nothing behind. */
  lemma {:induction false} PlainNameLeavesNothing(fileName: string)
    requires '\n' !in fileName
    ensures Remove(Token, Block(InsertFor(fileName)), false) == Ok([]) && Leftover(InsertFor(fileName)) == Ok([])
  {
    LinkLine(fileName);
    PlainInsertLeavesNothing(NewLine(Link(fileName)));
  }

  /** So for ordinary names the second run gives the very same lines: no growing blank lines. */
  lemma {:induction false} SecondRunChangesNothing(fileName: string, lines: seq<Line>, out: seq<Line>)
    requires '\n' !in fileName
    requires Analyze(InsertFor(fileName), lines) == Ok(out)
    ensures Analyze(InsertFor(fileName), out) == Ok(out)
  {
    PlainNameLeavesNothing(fileName);
    SecondRunIff(InsertFor(fileName), lines, out);
  }
}
