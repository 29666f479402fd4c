/**
 The analytics pass on whole documents: read the text, rewrite the lines, write the text
 (cmd/mungedocs/util.go, cmd/mungedocs/analytics.go). Reading again computes the preformatted flags
 afresh, and that is what decides whether a second run changes anything.
 */
module AnalyticsText {
  import opened Permutations
  import opened Strings
  import opened Wrappers
  import opened LineScan
  import opened MungeDocs
  import opened Analytics

  function Munge(fileName: string, text: string): Result<string> {
    match Analyze(InsertFor(fileName), Scan(SplitLines(text), false))
    case Err => Err
    case Ok(out) => Ok(Text(out))
  }

  // ----- what the passes select -----

  lemma {:induction false} RemoveSelects(token: string, lines: seq<Line>, between: bool)
    requires Remove(token, lines, between).Ok?
    ensures forall l :: l in Remove(token, lines, between).value ==> l in lines
  {
    if |lines| > 0 {
      var l, rest := lines[0], lines[1..];
      if l.preformatted {
        RemoveSelects(token, rest, between);
      } else if IsBegin(token, l) {
        RemoveSelects(token, rest, true);
      } else if IsEnd(token, l) {
        RemoveSelects(token, rest, false);
      } else {
        RemoveSelects(token, rest, between);
      }
    }
  }

  // ----- writing and reading back -----

  ghost predicate OneLiners(lines: seq<Line>) {
    forall l :: l in lines ==> '\n' !in l.data
  }

  lemma {:induction false} ReadBack(lines: seq<Line>)
    requires |lines| > 0 && OneLiners(lines)
    ensures SplitLines(Text(lines)) == Data(lines)
  {
    var data := Data(lines);
    var joined := Join(data, "\n");
    forall p | p in data ensures '\n' !in p {
      var i :| 0 <= i < |data| && data[i] == p;
      assert lines[i] in lines;
    }
    assert joined + "\n" + "" == Text(lines);
    SplitConcat(joined, '\n', "");
    SplitJoin(data, '\n');
    NoCharSplit("", '\n');
    assert Split(Text(lines), "\n") == data + [""];
    assert (data + [""])[..|data|] == data;
  }

  lemma {:induction false} ReadGivesOneLiners(text: string)
    ensures OneLiners(Scan(SplitLines(text), false))
  {
    PartsHaveNoSep(text, '\n');
    ScanHolds(Flagged, NextOpen, DataOf, SplitLines(text), false);
  }

  // ----- fences -----

  function NextBetween(between: bool, l: Line): bool {
    if l.preformatted then between
    else if IsBegin(Token, l) then true
    else if IsEnd(Token, l) then false
    else between
  }

  /** No fence opens or closes between the marks of an analytics block. */
  predicate BlocksFenceless(lines: seq<string>, open: bool, between: bool) {
    |lines| == 0 ||
    (&& (between ==> NextOpen(open, lines[0]) == open)
     && BlocksFenceless(lines[1..], NextOpen(open, lines[0]), NextBetween(between, Flagged(lines[0], open))))
  }

  lemma {:induction false} MarkKeepsOpen(s: string, open: bool)
    requires s == BeginMark(Token) || s == EndMark(Token) || HasPrefix(s, LinkPrefix)
    ensures !IsFence(s) && NextOpen(open, s) == open
  {
    MarksArePlain();
    PrefixIsPlain();
    NotFence(s);
  }

  /** Removing the blocks does not move the preformatted regions. */
  lemma {:induction false} RemoveKeepsFences(lines: seq<string>, open: bool, between: bool)
    requires BlocksFenceless(lines, open, between)
    requires Remove(Token, Scan(lines, open), between).Ok?
    ensures var rest := Remove(Token, Scan(lines, open), between).value;
            Scan(Data(rest), open) == rest && EndOpen(Data(rest), open) == EndOpen(lines, open)
    decreases |lines|
  {
    if |lines| > 0 {
      var s, l := lines[0], Flagged(lines[0], open);
      assert Scan(lines, open)[1..] == Scan(lines[1..], NextOpen(open, s));
      RemoveKeepsFences(lines[1..], NextOpen(open, s), NextBetween(between, l));
      var rest := Remove(Token, Scan(lines[1..], NextOpen(open, s)), NextBetween(between, l)).value;
      if !l.preformatted && (IsBegin(Token, l) || IsEnd(Token, l)) {
        MarkKeepsOpen(s, open);
      } else if l.preformatted || !between {
        ScanCons(Flagged, NextOpen, DataOf, s, rest, open);
      }
    }
  }

  /** Nor does dropping stray links. */
  lemma {:induction false} FilterKeepsFences(lines: seq<Line>, open: bool)
    requires Scan(Data(lines), open) == lines
    ensures Scan(Data(Filter(lines)), open) == Filter(lines)
    ensures EndOpen(Data(Filter(lines)), open) == EndOpen(Data(lines), open)
  {
    forall s, o ensures Keeps(Flagged(s, o)) || NextOpen(o, s) == o {
      if HasPrefix(s, LinkPrefix) {
        MarkKeepsOpen(s, o);
      }
    }
    FilterKeepsScan(Flagged, NextOpen, DataOf, Keeps, lines, open);
  }

  // ----- the written document, read again -----

  function Preformatted(s: string): Line {
    NewLine(s).(preformatted := true)
  }

  function Marks(fileName: string): seq<string> {
    [BeginMark(Token), Link(fileName), EndMark(Token)]
  }

  /** The separator and the block, as text. */
  function Tail(fileName: string, kept: seq<Line>): seq<string> {
    Data(Separator(kept)) + Marks(fileName)
  }

  predicate Fenceless(s: string) {
    !IsFence(s) && '\n' !in s
  }

  lemma {:induction false} MarksAreFenceless(fileName: string)
    requires '\n' !in fileName
    ensures Fenceless(BeginMark(Token)) && Fenceless(EndMark(Token)) && Fenceless(Link(fileName)) && Fenceless("")
  {
    MarksArePlain();
    LinkIsPlain(fileName);
    NotFence(BeginMark(Token));
    NotFence(EndMark(Token));
    NotFence(Link(fileName));
    assert SkipSpace("") == "";
  }

  lemma {:induction false} TailHolds(p: string -> bool, sep: seq<string>, a: string, b: string, c: string)
    requires (sep == [] || sep == [""]) && p("") && p(a) && p(b) && p(c)
    ensures forall s :: s in sep + [a, b, c] ==> p(s)
  {
  }

  lemma {:induction false} TailIsFenceless(fileName: string, kept: seq<Line>)
    requires '\n' !in fileName
    ensures forall s :: s in Tail(fileName, kept) ==> Fenceless(s)
  {
    MarksAreFenceless(fileName);
    TailHolds(Fenceless, Data(Separator(kept)), BeginMark(Token), Link(fileName), EndMark(Token));
  }

  lemma {:induction false} BlockIsText(fileName: string)
    requires '\n' !in fileName
    ensures Block(InsertFor(fileName)) == MapSeq(NewLine, Marks(fileName))
  {
    LinkLine(fileName);
  }

  lemma {:induction false} OutIsTail(fileName: string, kept: seq<Line>)
    requires '\n' !in fileName
    ensures kept + Separator(kept) + Block(InsertFor(fileName)) == kept + MapSeq(NewLine, Tail(fileName, kept))
  {
    BlockIsText(fileName);
    var sep := Separator(kept);
    assert sep == MapSeq(NewLine, Data(sep));
    MapConcat(NewLine, Data(sep), Marks(fileName));
    assert kept + sep + MapSeq(NewLine, Marks(fileName)) == kept + (sep + MapSeq(NewLine, Marks(fileName)));
  }

  lemma {:induction false} OutIsOneLiners(kept: seq<Line>, tail: seq<string>)
    requires OneLiners(kept) && forall s :: s in tail ==> Fenceless(s)
    ensures OneLiners(kept + MapSeq(NewLine, tail)) && OneLiners(kept + MapSeq(Preformatted, tail))
  {
    forall l | l in MapSeq(NewLine, tail) || l in MapSeq(Preformatted, tail) ensures l.data in tail {
    }
  }

  lemma {:induction false} DataOfOut(kept: seq<Line>, tail: seq<string>)
    ensures Data(kept + MapSeq(NewLine, tail)) == Data(kept) + tail
  {
    MapConcat(DataOf, kept, MapSeq(NewLine, tail));
    assert MapSeq(DataOf, MapSeq(NewLine, tail)) == tail;
  }

  lemma {:induction false} ScanFenceless(tail: seq<string>, open: bool, still: string -> Line)
    requires forall s :: s in tail ==> Fenceless(s)
    requires still == if open then Preformatted else NewLine
    ensures Scan(tail, open) == MapSeq(still, tail)
  {
    forall s | s in tail ensures NextOpen(open, s) == open && Flagged(s, open) == still(s) {
    }
    ScanStill(Flagged, NextOpen, still, tail, open);
  }

  /** Reading the written text again: the kept lines are flagged afresh, the tail by the state they end in. */
  lemma {:induction false} SecondRead(kept: seq<Line>, tail: seq<string>, still: string -> Line)
    requires |tail| > 0 && OneLiners(kept + MapSeq(NewLine, tail)) && forall s :: s in tail ==> Fenceless(s)
    requires still == if EndOpen(Data(kept), false) then Preformatted else NewLine
    ensures Scan(SplitLines(Text(kept + MapSeq(NewLine, tail))), false) == Scan(Data(kept), false) + MapSeq(still, tail)
  {
    ReadBack(kept + MapSeq(NewLine, tail));
    DataOfOut(kept, tail);
    ScanConcat(Flagged, NextOpen, Data(kept), tail, false);
    ScanFenceless(tail, EndOpen(Data(kept), false), still);
  }

  /** With no mark to see and nothing to drop, the pass adds another block. */
  lemma {:induction false} AnotherBlock(insert: seq<Line>, lines: seq<Line>)
    requires Unmarked(Token, lines) && AllKept(lines)
    ensures Analyze(insert, lines) == Ok(lines + Separator(lines) + Block(insert))
  {
    AnalyzeShape(insert, lines);
    RemoveSkipsUnmarked(Token, lines, []);
    assert Remove(Token, [], false) == Ok([]);
    assert lines + [] == lines;
    FilterAll(Keeps, lines);
  }

  // ----- removal, piece by piece -----

  /** The lines a removal keeps of a piece of a document, and whether it ends inside a block. */
  function Pass(lines: seq<Line>, between: bool): Result<(seq<Line>, bool)> {
    if |lines| == 0 then Ok(([], between))
    else
      var l := lines[0];
      var keeps := l.preformatted || (!between && !IsBegin(Token, l) && !IsEnd(Token, l));
      if !l.preformatted && ((IsBegin(Token, l) && between) || (!IsBegin(Token, l) && IsEnd(Token, l) && !between)) then Err
      else
        match Pass(lines[1..], NextBetween(between, l))
        case Err => Err
        case Ok(r) => Ok(((if keeps then [l] else []) + r.0, r.1))
  }

  lemma {:induction false} RemoveByPass(a: seq<Line>, b: seq<Line>, between: bool)
    ensures Remove(Token, a + b, between) == match Pass(a, between)
                                             case Err => Err
                                             case Ok(r) => Prepend(r.0, Remove(Token, b, r.1))
    decreases |a|
  {
    if |a| == 0 {
      assert a + b == b;
      PrependNone(Remove(Token, b, between));
    } else {
      var l := a[0];
      assert (a + b)[1..] == a[1..] + b && (a + b)[0] == l;
      RemoveByPass(a[1..], b, NextBetween(between, l));
      if Pass(a[1..], NextBetween(between, l)).Ok? {
        var r := Pass(a[1..], NextBetween(between, l)).value;
        PrependTwice([l], r.0, Remove(Token, b, r.1));
        assert [] + r.0 == r.0;
      }
    }
  }

  lemma {:induction false} PassShrinks(lines: seq<Line>, between: bool)
    requires Pass(lines, between).Ok?
    ensures |Pass(lines, between).value.0| <= |lines|
    ensures |Pass(lines, between).value.0| == |lines| ==> Unmarked(Token, lines) && Pass(lines, between).value.0 == lines
    ensures forall l :: l in Pass(lines, between).value.0 ==> l in lines
    decreases |lines|
  {
    if |lines| > 0 {
      PassShrinks(lines[1..], NextBetween(between, lines[0]));
      assert lines == [lines[0]] + lines[1..];
    }
  }

  /** A blank last line survives a removal that ends outside a block. */
  lemma {:induction false} PassKeepsLastBlank(lines: seq<Line>, between: bool)
    requires |lines| > 0 && lines[|lines| - 1].data == ""
    requires Pass(lines, between).Ok? && !Pass(lines, between).value.1
    ensures var kept := Pass(lines, between).value.0; |kept| > 0 && kept[|kept| - 1] == lines[|lines| - 1]
    decreases |lines|
  {
    if |lines| == 1 {
      assert lines[1..] == [];
      assert |BeginMark(Token)| > 0 && |EndMark(Token)| > 0;
    } else {
      PassKeepsLastBlank(lines[1..], NextBetween(between, lines[0]));
    }
  }

  lemma {:induction false} PassKeepsPreformatted(lines: seq<Line>, between: bool)
    requires forall l :: l in lines ==> l.preformatted
    ensures Pass(lines, between) == Ok((lines, between))
    decreases |lines|
  {
    if |lines| > 0 {
      PassKeepsPreformatted(lines[1..], between);
      assert lines == [lines[0]] + lines[1..];
    }
  }

  lemma {:induction false} FilterShrinks(lines: seq<Line>)
    ensures |FilterBy(Keeps, lines)| <= |lines|
    ensures |FilterBy(Keeps, lines)| == |lines| ==> AllKept(lines)
  {
    if |lines| > 0 {
      FilterShrinks(lines[1..]);
      assert lines == [lines[0]] + lines[1..];
    }
  }

  lemma {:induction false} FilterKeepsLastBlank(lines: seq<Line>)
    requires |lines| > 0 && lines[|lines| - 1].data == ""
    ensures Filter(lines) != [] && Separator(Filter(lines)) == []
  {
    var init, last := lines[..|lines| - 1], lines[|lines| - 1];
    assert lines == init + [last];
    FilterConcat(Keeps, init, [last]);
    PrefixIsPlain();
    FilterAll(Keeps, [last]);
  }

  // ----- when the text ends inside a fence -----

  lemma {:induction false} LastFence(lines: seq<string>) returns (a: seq<string>, f: string, b: seq<string>)
    requires EndOpen(lines, false)
    ensures lines == a + [f] + b && IsFence(f) && NextOpen(false, f) && !EndOpen(a, false)
    ensures forall s :: s in b ==> !IsFence(s)
  {
    var init, last := lines[..|lines| - 1], lines[|lines| - 1];
    assert lines == init + [last];
    ScanConcat(Flagged, NextOpen, init, [last], false);
    ScanOne(last, EndOpen(init, false));
    if IsFence(last) {
      a, f, b := init, last, [];
    } else {
      a, f, b := LastFence(init);
      b := b + [last];
    }
  }

  lemma {:induction false} OpenLines(a: seq<string>, f: string, b: seq<string>)
    requires NextOpen(false, f) && !EndOpen(a, false) && forall s :: s in b ==> !IsFence(s)
    ensures Scan(a + [f] + b, false) == Scan(a, false) + ([Flagged(f, false)] + MapSeq(Preformatted, b))
  {
    ScanConcat(Flagged, NextOpen, a + [f], b, false);
    ScanConcat(Flagged, NextOpen, a, [f], false);
    ScanOne(f, false);
    ScanFencelessOpen(b);
  }

  lemma {:induction false} ScanFencelessOpen(b: seq<string>)
    requires forall s :: s in b ==> !IsFence(s)
    ensures Scan(b, true) == MapSeq(Preformatted, b)
  {
    ScanStill(Flagged, NextOpen, Preformatted, b, true);
  }

  lemma {:induction false} FenceMoves(a: seq<string>, g: seq<string>, f: string, b: seq<string>, more: seq<string>)
    requires IsFence(f) && |more| > 0 && forall s :: s in b + more ==> !IsFence(s)
    ensures a + [f] + b != g + [f] + b + more
  {
    var x, y := a + [f] + b, g + [f] + b + more;
    if |x| == |y| {
      assert x[|a|] == f;
      assert |a| == |g| + |more|;
      assert y[|a|] == (b + more)[|a| - |g| - 1];
    }
  }

  ghost predicate PreformattedAll(lines: seq<Line>) {
    forall l :: l in lines ==> l.preformatted
  }

  /** Preformatted lines at the end are kept, and another block goes below them. */
  lemma {:induction false} AnotherBlockBelow(insert: seq<Line>, a: seq<Line>, p: seq<Line>) returns (kept: seq<Line>)
    requires Analyze(insert, a + p).Ok? && PreformattedAll(p)
    ensures forall l :: l in kept ==> l in a
    ensures Analyze(insert, a + p) == Ok(kept + p + Separator(kept + p) + Block(insert))
  {
    AnalyzeShape(insert, a + p);
    RemoveByPass(a, p, false);
    var r := Pass(a, false).value;
    assert p + [] == p;
    RemoveByPass(p, [], r.1);
    PassKeepsPreformatted(p, r.1);
    kept := Filter(r.0);
    assert Remove(Token, a + p, false) == Ok(r.0 + p);
    FilterConcat(Keeps, r.0, p);
    FilterAll(Keeps, p);
    PassShrinks(a, false);
    FilterSelects(Keeps, r.0);
  }

  lemma {:induction false} OneLinersOfData(lines: seq<Line>, data: seq<string>)
    requires Data(lines) == data && forall s :: s in data ==> '\n' !in s
    ensures OneLiners(lines)
  {
    forall l | l in lines ensures '\n' !in l.data {
      var i :| 0 <= i < |lines| && lines[i] == l;
      assert data[i] == l.data;
    }
  }

  lemma {:induction false} DataBelow(kept: seq<Line>, f: string, rest: seq<string>, more: seq<string>)
    ensures Data(kept + ([Flagged(f, false)] + MapSeq(Preformatted, rest)) + MapSeq(NewLine, more)) ==
            Data(kept) + [f] + rest + more
  {
    var p := [Flagged(f, false)] + MapSeq(Preformatted, rest);
    DataOfOut(kept + p, more);
    MapConcat(DataOf, kept, p);
    assert Data(p) == [f] + rest;
  }

  /** A fence stands further from the end than before once lines have been added below it. */
  lemma {:induction false} TextBelowDiffers(
    a: seq<string>, kept: seq<Line>, f: string, rest: seq<string>, more: seq<string>, out: seq<Line>, again: seq<Line>)
    requires OneLiners(out) && Data(out) == a + [f] + rest
    requires IsFence(f) && (forall s :: s in rest ==> !IsFence(s))
    requires |more| > 0 && forall s :: s in more ==> Fenceless(s)
    requires forall l :: l in kept ==> l in Scan(a, false)
    requires again == kept + ([Flagged(f, false)] + MapSeq(Preformatted, rest)) + MapSeq(NewLine, more)
    ensures Text(again) != Text(out)
  {
    DataBelow(kept, f, rest, more);
    FenceMoves(a, Data(kept), f, rest, more);
    ReadLinesHold(a, kept, out);
    OneLinersOfParts(kept, [Flagged(f, false)] + MapSeq(Preformatted, rest), f, rest, more, out);
    ReadBack(again);
    ReadBack(out);
  }

  lemma {:induction false} BlockBelowFence(
    fileName: string, insert: seq<Line>, a: seq<string>, f: string, rest: seq<string>, p: seq<Line>, out: seq<Line>, again: seq<Line>)
    requires '\n' !in fileName && insert == InsertFor(fileName) && OneLiners(out) && Data(out) == a + [f] + rest
    requires NextOpen(false, f) && (forall s :: s in rest ==> !IsFence(s))
    requires p == [Flagged(f, false)] + MapSeq(Preformatted, rest)
    requires Analyze(insert, Scan(a, false) + p) == Ok(again)
    ensures Text(again) != Text(out)
  {
    assert PreformattedAll(p);
    var kept := AnotherBlockBelow(insert, Scan(a, false), p);
    OutIsTail(fileName, kept + p);
    TailIsFenceless(fileName, kept + p);
    TextBelowDiffers(a, kept, f, rest, Tail(fileName, kept + p), out, again);
  }

  lemma {:induction false} OpenFenceGrows(
    fileName: string, insert: seq<Line>, k: seq<string>, tail: seq<string>, out: seq<Line>, again: seq<Line>)
    requires '\n' !in fileName && insert == InsertFor(fileName) && EndOpen(k, false) && OneLiners(out)
    requires |tail| > 0 && (forall s :: s in tail ==> Fenceless(s)) && Data(out) == k + tail
    requires Analyze(insert, Scan(k, false) + MapSeq(Preformatted, tail)) == Ok(again)
    ensures Text(again) != Text(out)
  {
    var a, f, b := LastFence(k);
    OpenLines(a, f, b);
    var head, rest := Flagged(f, false), b + tail;
    var p := [head] + MapSeq(Preformatted, rest);
    MapConcat(Preformatted, b, tail);
    Regroup(Scan(a, false), head, MapSeq(Preformatted, b), MapSeq(Preformatted, tail));
    Regroup(a, f, b, tail);
    BlockBelowFence(fileName, insert, a, f, rest, p, out, again);
  }

  lemma {:induction false} Regroup<T>(a: seq<T>, x: T, b: seq<T>, c: seq<T>)
    ensures a + ([x] + b) + c == a + ([x] + (b + c))
    ensures a + [x] + b + c == a + [x] + (b + c)
  {
  }

  lemma {:induction false} ReadLinesHold(a: seq<string>, kept: seq<Line>, out: seq<Line>)
    requires OneLiners(out) && a <= Data(out)
    requires forall l :: l in kept ==> l in Scan(a, false)
    ensures OneLiners(kept)
  {
    ScanHolds(Flagged, NextOpen, DataOf, a, false);
    forall l | l in kept ensures '\n' !in l.data {
      var i :| 0 <= i < |a| && a[i] == l.data;
      assert Data(out)[i] == l.data && out[i] in out;
    }
  }

  lemma {:induction false} OneLinersOfParts(
    kept: seq<Line>, p: seq<Line>, f: string, rest: seq<string>, more: seq<string>, out: seq<Line>)
    requires OneLiners(kept) && OneLiners(out) && Data(p) == [f] + rest
    requires forall s :: s in [f] + rest ==> s in Data(out)
    requires forall s :: s in more ==> Fenceless(s)
    ensures OneLiners(kept + p + MapSeq(NewLine, more))
  {
    forall s | s in [f] + rest ensures '\n' !in s {
      var i :| 0 <= i < |out| && Data(out)[i] == s;
      assert out[i] in out;
    }
    OneLinersOfData(p, [f] + rest);
    OutIsOneLiners(kept + p, more);
  }

  // ----- when a mark or a stray link comes to light -----

  ghost predicate Clean(lines: seq<Line>) {
    Unmarked(Token, lines) && AllKept(lines)
  }

  /** A run on lines that are followed by a separator and a block sees the lines by themselves. */
  lemma {:induction false} BlockStandsAlone(insert: seq<Line>, lines: seq<Line>, sep: seq<Line>) returns (kept: seq<Line>)
    requires sep == Separator(lines) && Remove(Token, Block(insert), false) == Ok([])
    requires Remove(Token, lines + (sep + Block(insert)), false).Ok?
    ensures Pass(lines, false) == Ok((kept, false))
    ensures Remove(Token, lines + (sep + Block(insert)), false) == Ok(kept + sep)
  {
    RemoveByPass(lines, sep + Block(insert), false);
    kept := Pass(lines, false).value.0;
    RemoveSepBlock(insert, sep, Pass(lines, false).value.1);
  }

  lemma {:induction false} RemoveSepBlock(insert: seq<Line>, sep: seq<Line>, between: bool)
    requires (sep == [] || sep == [Blank]) && Remove(Token, Block(insert), false) == Ok([])
    requires Remove(Token, sep + Block(insert), between).Ok?
    ensures !between && Remove(Token, sep + Block(insert), between) == Ok(sep)
  {
    var block := Block(insert);
    BlankIsPlain(Token);
    MarksAreMarks(Token);
    assert sep == [] ==> sep + block == block;
    assert sep == [Blank] ==> (sep + block)[0] == Blank && (sep + block)[1..] == block;
    assert sep + [] == sep;
  }

  lemma {:induction false} UncleanShrinks(insert: seq<Line>, lines: seq<Line>, sep: seq<Line>, whole: seq<Line>)
    requires !Clean(lines) && sep == Separator(lines) && Remove(Token, Block(insert), false) == Ok([])
    requires whole == lines + (sep + Block(insert)) && Analyze(insert, whole).Ok?
    ensures |Analyze(insert, whole).value| < |whole|
  {
    AnalyzeShape(insert, whole);
    var kept := BlockStandsAlone(insert, lines, sep);
    BodyShrinks(lines, kept, sep);
  }

  lemma {:induction false} BodyShrinks(lines: seq<Line>, kept: seq<Line>, sep: seq<Line>)
    requires sep == Separator(lines) && !Clean(lines)
    requires Pass(lines, false) == Ok((kept, false))
    ensures |Body(kept + sep)| < |lines + sep|
  {
    PassShrinks(lines, false);
    FilterShrinks(kept);
    FilterConcat(Keeps, kept, sep);
    BlankIsPlain(Token);
    FilterAll(Keeps, sep);
    if sep == [] {
      PassKeepsLastBlank(lines, false);
      FilterKeepsLastBlank(kept);
      assert kept + sep == kept;
    } else {
      FilterKeepsLastBlank(kept + sep);
    }
  }

  lemma {:induction false} ShorterTextDiffers(x: seq<Line>, y: seq<Line>)
    requires OneLiners(x) && OneLiners(y) && 0 < |x| < |y|
    ensures Text(x) != Text(y)
  {
    ReadBack(x);
    ReadBack(y);
  }

  // ----- the theorem -----

  /** The text a run keeps of a document: without analytics blocks and stray links. */
  function KeptText(text: string): seq<string> {
    match Remove(Token, Scan(SplitLines(text), false), false)
    case Err => []
    case Ok(rest) => Data(Filter(rest))
  }

  /** Read by itself, the kept text ends outside fences and shows no mark and no stray link. */
  ghost predicate Settled(kept: seq<string>) {
    !EndOpen(kept, false) && Clean(Scan(kept, false))
  }

  /** Once a run has succeeded, another one leaves the text alone exactly when what it kept is settled. */
  lemma {:induction false} SecondRunOnTextIff(fileName: string, text: string, text': string)
    requires '\n' !in fileName && Munge(fileName, text) == Ok(text')
    ensures Munge(fileName, text') == Ok(text') <==> Settled(KeptText(text))
  {
    var kept, out := FirstRun(fileName, text);
    var k, tail := Data(kept), Tail(fileName, kept);
    DataOfOut(kept, tail);
    TailIsFenceless(fileName, kept);
    if EndOpen(k, false) {
      SecondRead(kept, tail, Preformatted);
      if Munge(fileName, text').Ok? {
        var again := Analyze(InsertFor(fileName), Scan(SplitLines(text'), false)).value;
        OpenFenceGrows(fileName, InsertFor(fileName), k, tail, out, again);
      }
    } else {
      SecondRead(kept, tail, NewLine);
      ClosedTextIff(fileName, InsertFor(fileName), kept, Scan(k, false), Scan(SplitLines(text'), false), out);
    }
  }

  lemma {:induction false} FirstRun(fileName: string, text: string) returns (kept: seq<Line>, out: seq<Line>)
    requires '\n' !in fileName && Munge(fileName, text).Ok?
    ensures KeptText(text) == Data(kept) && OneLiners(kept) && OneLiners(out)
    ensures out == kept + MapSeq(NewLine, Tail(fileName, kept)) && Munge(fileName, text) == Ok(Text(out))
  {
    var lines := Scan(SplitLines(text), false);
    AnalyzeShape(InsertFor(fileName), lines);
    var rest := Remove(Token, lines, false).value;
    kept := Filter(rest);
    RemoveSelects(Token, lines, false);
    FilterSelects(Keeps, rest);
    ReadGivesOneLiners(text);
    OutIsTail(fileName, kept);
    TailIsFenceless(fileName, kept);
    out := kept + MapSeq(NewLine, Tail(fileName, kept));
    OutIsOneLiners(kept, Tail(fileName, kept));
  }

  lemma {:induction false} ScanKeepsData(lines: seq<string>, open: bool)
    ensures Data(Scan(lines, open)) == lines
  {
    if |lines| > 0 {
      ScanKeepsData(lines[1..], NextOpen(open, lines[0]));
      assert lines == [lines[0]] + lines[1..];
      MapConcat(DataOf, [Flagged(lines[0], open)], Scan(lines[1..], NextOpen(open, lines[0])));
    }
  }

  lemma {:induction false} SameTail(fileName: string, a: seq<Line>, b: seq<Line>)
    requires Data(a) == Data(b)
    ensures Tail(fileName, a) == Tail(fileName, b)
  {
    assert |a| == |b|;
    if |a| > 0 {
      assert Data(a)[|a| - 1] == Data(b)[|b| - 1];
    }
  }

  lemma {:induction false} CleanStays(fileName: string, insert: seq<Line>, lines: seq<Line>, before: seq<Line>)
    requires '\n' !in fileName && insert == InsertFor(fileName) && Clean(lines)
    requires before == lines + Separator(lines) + Block(insert)
    ensures Analyze(insert, before) == Ok(before)
  {
    AnotherBlock(insert, lines);
    SecondRunChangesNothing(fileName, lines, before);
  }

  lemma {:induction false} UncleanChanges(
    fileName: string, insert: seq<Line>, lines: seq<Line>, before: seq<Line>, out: seq<Line>, again: seq<Line>)
    requires '\n' !in fileName && insert == InsertFor(fileName) && !Clean(lines)
    requires before == lines + Separator(lines) + Block(insert) && Data(before) == Data(out) && OneLiners(out)
    requires Analyze(insert, before) == Ok(again)
    ensures Text(again) != Text(out)
  {
    PlainNameLeavesNothing(fileName);
    Associate(lines, Separator(lines), Block(insert));
    UncleanShrinks(insert, lines, Separator(lines), before);
    AnalyzeOneLiners(fileName, insert, before, out, again);
    SameLength(before, out);
    ShorterTextDiffers(again, out);
  }

  lemma {:induction false} SameLength(a: seq<Line>, b: seq<Line>)
    requires Data(a) == Data(b)
    ensures |a| == |b|
  {
    assert |Data(a)| == |a| && |Data(b)| == |b|;
  }

  lemma {:induction false} Associate<T>(a: seq<T>, b: seq<T>, c: seq<T>)
    ensures a + b + c == a + (b + c)
  {
  }

  lemma {:induction false} ClosedTextIff(
    fileName: string, insert: seq<Line>, kept: seq<Line>, lines: seq<Line>, before: seq<Line>, out: seq<Line>)
    requires '\n' !in fileName && insert == InsertFor(fileName) && OneLiners(out)
    requires lines == Scan(Data(kept), false)
    requires before == lines + MapSeq(NewLine, Tail(fileName, kept)) && out == kept + MapSeq(NewLine, Tail(fileName, kept))
    ensures (Analyze(insert, before).Ok? && Text(Analyze(insert, before).value) == Text(out)) <==> Clean(lines)
  {
    ScanKeepsData(Data(kept), false);
    SameTail(fileName, kept, lines);
    OutIsTail(fileName, lines);
    DataOfOut(kept, Tail(fileName, kept));
    DataOfOut(lines, Tail(fileName, kept));
    if Clean(lines) {
      CleanStays(fileName, insert, lines, before);
    } else if Analyze(insert, before).Ok? {
      UncleanChanges(fileName, insert, lines, before, out, Analyze(insert, before).value);
    }
  }

  lemma {:induction false} AnalyzeOneLiners(
    fileName: string, insert: seq<Line>, lines: seq<Line>, out: seq<Line>, again: seq<Line>)
    requires '\n' !in fileName && insert == InsertFor(fileName) && OneLiners(out) && Data(lines) == Data(out)
    requires Analyze(insert, lines) == Ok(again)
    ensures OneLiners(again) && |again| > 0
  {
    AnalyzeShape(insert, lines);
    var rest := Remove(Token, lines, false).value;
    RemoveSelects(Token, lines, false);
    FilterSelects(Keeps, rest);
    forall s | s in Data(out) ensures '\n' !in s {
      var i :| 0 <= i < |out| && Data(out)[i] == s;
      assert out[i] in out;
    }
    OneLinersOfData(lines, Data(out));
    OutIsTail(fileName, Filter(rest));
    TailIsFenceless(fileName, Filter(rest));
    OutIsOneLiners(Filter(rest), Tail(fileName, Filter(rest)));
  }

  /** If no fence opens inside an analytics block, it only matters whether the document ends in an open fence. */
  lemma {:induction false} FencelessBlocksSettle(text: string)
    requires BlocksFenceless(SplitLines(text), false, false)
    requires Remove(Token, Scan(SplitLines(text), false), false).Ok?
    ensures Settled(KeptText(text)) <==> !EndOpen(SplitLines(text), false)
  {
    var lines := Scan(SplitLines(text), false);
    var rest := Remove(Token, lines, false).value;
    RemoveUnmarks(Token, lines, false);
    FilterSelects(Keeps, rest);
    RemoveKeepsFences(SplitLines(text), false, false);
    FilterKeepsFences(rest, false);
  }

  lemma {:induction false} ScanOne(s: string, open: bool)
    ensures Scan([s], open) == [Flagged(s, open)] && EndOpen([s], open) == NextOpen(open, s)
  {
    assert [s][1..] == [];
    assert ScanBy(Flagged, NextOpen, [], NextOpen(open, s)) == [];
    assert EndBy(NextOpen, [], NextOpen(open, s)) == NextOpen(open, s);
  }

  lemma {:induction false} FenceOpens(text: string)
    requires text == "```\n"
    ensures SplitLines(text) == ["```"] && NextOpen(false, "```")
  {
    var s := "```";
    assert text == s + "\n" + "";
    SplitFirstChar(s, '\n', "");
    NoCharSplit("", '\n');
    assert SkipSpace(s) == s && s[3..] == "";
  }

  /** A document that is one opening fence gets a new block on every run. */
  lemma {:induction false} UnclosedFenceIsNotStable(fileName: string, text: string)
    requires '\n' !in fileName && text == "```\n"
    ensures Munge(fileName, text).Ok?
    ensures Munge(fileName, Munge(fileName, text).value) != Munge(fileName, text)
  {
    var lines := SplitLines(text);
    FenceOpens(text);
    ScanOne(lines[0], false);
    var l := Flagged(lines[0], false);
    RemoveSkipsUnmarked(Token, [l], []);
    assert [l] + [] == [l] && Remove(Token, [], false) == Ok([]);
    AnalyzeShape(InsertFor(fileName), [l]);
    FilterAll(Keeps, [l]);
    assert KeptText(text) == lines;
    SecondRunOnTextIff(fileName, text, Munge(fileName, text).value);
  }
}
