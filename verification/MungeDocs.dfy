/**
 Macro blocks in documents (cmd/mungedocs/util.go) and the analytics block (cmd/mungedocs/analytics.go).
 A line carries its text and flags computed when the document was split into lines.
 */
module MungeDocs {
  import opened Permutations
  import opened Strings
  import opened Wrappers
  import opened LineScan

  datatype Line = Line(data: string, preformatted: bool, header: bool, beginTag: bool, endTag: bool)

  // ----- lines -----

  const BeginText: string := "<!-- BEGIN MUNGE:"
  const EndText: string := "<!-- END MUNGE:"

  function BeginMark(token: string): string {
    BeginText + " " + token + " -->"
  }

  function EndMark(token: string): string {
    EndText + " " + token + " -->"
  }

  /** newMungeLine; it does not set preformatted. */
  function NewLine(s: string): Line {
    Line(s, false, HasPrefix(s, "#"), IndexFrom(s, BeginText, 0) != -1, IndexFrom(s, EndText, 0) != -1)
  }

  function SkipSpace(s: string): string {
    if |s| > 0 && s[0] in {' ', '\t', '\n', '\U{000C}', '\r'} then SkipSpace(s[1..]) else s
  }

  /** Three backquotes after leading space. */
  predicate IsFence(s: string) {
    HasPrefix(SkipSpace(s), "```")
  }

  /** A fence that is closed again on its own line. */
  predicate IsInlineFence(s: string) {
    IsFence(s) && IndexFrom(SkipSpace(s)[3..], "```", 0) != -1
  }

  /** Whether the text is inside a preformatted block after this line. */
  predicate NextOpen(open: bool, s: string) {
    if open then !IsFence(s) else IsFence(s) && !IsInlineFence(s)
  }

  /** Whether a document ends inside a preformatted block. */
  predicate EndOpen(lines: seq<string>, open: bool) {
    EndBy(NextOpen, lines, open)
  }

  function Flagged(s: string, open: bool): Line {
    NewLine(s).(preformatted := NextOpen(open, s))
  }

  function Scan(lines: seq<string>, open: bool): seq<Line> {
    ScanBy(Flagged, NextOpen, lines, open)
  }

  function SplitLines(document: string): seq<string> {
    var lines := Split(document, "\n");
    if lines[|lines| - 1] == "" then lines[..|lines| - 1] else lines
  }

  function DataOf(l: Line): string {
    l.data
  }

  function Data(lines: seq<Line>): seq<string> {
    MapSeq(DataOf, lines)
  }

  function Text(lines: seq<Line>): string {
    Join(Data(lines), "\n") + "\n"
  }

  // ----- block operations -----

  predicate IsBegin(token: string, l: Line) {
    l.beginTag && l.data == BeginMark(token)
  }

  predicate IsEnd(token: string, l: Line) {
    l.endTag && l.data == EndMark(token)
  }

  function Prepend(a: seq<Line>, r: Result<seq<Line>>): Result<seq<Line>> {
    match r
    case Ok(b) => Ok(a + b)
    case Err => Err
  }

  /** removeMacroBlock from inside or outside a block. Preformatted lines survive even inside one. */
  function Remove(token: string, lines: seq<Line>, between: bool): Result<seq<Line>> {
    if |lines| == 0 then
      if between then Err else Ok([])
    else
      var l, rest := lines[0], lines[1..];
      if l.preformatted then Prepend([l], Remove(token, rest, between))
      else if IsBegin(token, l) then (if between then Err else Remove(token, rest, true))
      else if IsEnd(token, l) then (if between then Remove(token, rest, false) else Err)
      else if between then Remove(token, rest, true)
      else Prepend([l], Remove(token, rest, false))
  }

  /** updateMacroBlock from inside or outside a block. Inside one, preformatted lines are no exception. */
  function Update(token: string, lines: seq<Line>, insert: seq<Line>, between: bool): Result<seq<Line>> {
    if |lines| == 0 then
      if between then Err else Ok([])
    else
      var l, rest := lines[0], lines[1..];
      if l.preformatted && !between then Prepend([l], Update(token, rest, insert, false))
      else if IsBegin(token, l) then (if between then Err else Prepend([l], Update(token, rest, insert, true)))
      else if IsEnd(token, l) then (if between then Prepend(insert + [l], Update(token, rest, insert, false)) else Err)
      else if between then Update(token, rest, insert, true)
      else Prepend([l], Update(token, rest, insert, false))
  }

  const Blank: Line := NewLine("")

  function Separator(lines: seq<Line>): seq<Line> {
    if |lines| > 0 && lines[|lines| - 1].data != "" then [Blank] else []
  }

  function Append(token: string, lines: seq<Line>): seq<Line> {
    lines + Separator(lines) + [NewLine(BeginMark(token)), NewLine(EndMark(token))]
  }

  // ----- the operations as loops -----

  lemma {:induction false} PrependNone(r: Result<seq<Line>>)
    ensures Prepend([], r) == r
  {
    if r.Ok? {
      assert [] + r.value == r.value;
    }
  }

  lemma {:induction false} PrependTwice(a: seq<Line>, b: seq<Line>, r: Result<seq<Line>>)
    ensures Prepend(a, Prepend(b, r)) == Prepend(a + b, r)
  {
    if r.Ok? {
      assert a + (b + r.value) == a + b + r.value;
    }
  }

  method GetMungeLines(document: string) returns (out: seq<Line>)
    ensures out == Scan(SplitLines(document), false)
  {
    out := [];
    var preformatted := false;
    var lines := SplitLines(document);
    assert lines[0..] == lines;
    for i := 0 to |lines|
      invariant out + ScanBy(Flagged, NextOpen, lines[i..], preformatted) == ScanBy(Flagged, NextOpen, lines, false)
    {
      ScanStep(Flagged, NextOpen, lines, i, preformatted, out);
      ghost var before := preformatted;
      var line := lines[i];
      if !preformatted {
        if IsFence(line) && !IsInlineFence(line) {
          preformatted := true;
        }
      } else {
        if IsFence(line) {
          preformatted := false;
        }
      }
      assert preformatted == NextOpen(before, line);
      var ml := NewLine(line).(preformatted := preformatted);
      out := out + [ml];
    }
    assert out + [] == out;
  }

  method RemoveMacroBlock(token: string, lines: seq<Line>) returns (r: Result<seq<Line>>)
    ensures r == Remove(token, lines, false)
  {
    var out: seq<Line>, between := [], false;
    assert lines[0..] == lines;
    PrependNone(Remove(token, lines, false));
    for i := 0 to |lines|
      invariant Prepend(out, Remove(token, lines[i..], between)) == Remove(token, lines, false)
    {
      assert lines[i..][1..] == lines[i + 1..];
      var l := lines[i];
      PrependTwice(out, [l], Remove(token, lines[i + 1..], between));
      if l.preformatted {
        out := out + [l];
        continue;
      }
      if IsBegin(token, l) {
        if between {
          return Err;
        }
        between := true;
      } else if IsEnd(token, l) {
        if !between {
          return Err;
        }
        between := false;
      } else if !between {
        out := out + [l];
      }
    }
    if between {
      return Err;
    }
    assert out + [] == out;
    return Ok(out);
  }

  method UpdateMacroBlock(token: string, lines: seq<Line>, insert: seq<Line>) returns (r: Result<seq<Line>>)
    ensures r == Update(token, lines, insert, false)
  {
    var out: seq<Line>, between := [], false;
    assert lines[0..] == lines;
    PrependNone(Update(token, lines, insert, false));
    for i := 0 to |lines|
      invariant Prepend(out, Update(token, lines[i..], insert, between)) == Update(token, lines, insert, false)
    {
      assert lines[i..][1..] == lines[i + 1..];
      var l := lines[i];
      PrependTwice(out, [l], Update(token, lines[i + 1..], insert, IsBegin(token, l)));
      PrependTwice(out, insert + [l], Update(token, lines[i + 1..], insert, false));
      if l.preformatted && !between {
        PrependTwice(out, [l], Update(token, lines[i + 1..], insert, false));
        out := out + [l];
        continue;
      }
      if IsBegin(token, l) {
        if between {
          return Err;
        }
        between := true;
        out := out + [l];
      } else if IsEnd(token, l) {
        if !between {
          return Err;
        }
        between := false;
        assert out + (insert + [l]) == out + insert + [l];
        out := out + insert + [l];
      } else if !between {
        out := out + [l];
      }
    }
    if between {
      return Err;
    }
    assert out + [] == out;
    return Ok(out);
  }

  // ----- laws of the block operations -----

  /** Neither mark occurs outside preformatted text. */
  ghost predicate Unmarked(token: string, lines: seq<Line>) {
    forall l :: l in lines ==> l.preformatted || (!IsBegin(token, l) && !IsEnd(token, l))
  }

  /** Neither mark occurs at all. */
  ghost predicate Markless(token: string, lines: seq<Line>) {
    forall l :: l in lines ==> !IsBegin(token, l) && !IsEnd(token, l)
  }

  lemma {:induction false} RemoveUnmarks(token: string, lines: seq<Line>, between: bool)
    requires Remove(token, lines, between).Ok?
    ensures Unmarked(token, Remove(token, lines, between).value)
    decreases |lines|
  {
    if |lines| > 0 {
      var l, rest := lines[0], lines[1..];
      if l.preformatted {
        RemoveUnmarks(token, rest, between);
      } else if IsBegin(token, l) {
        RemoveUnmarks(token, rest, true);
      } else if IsEnd(token, l) {
        RemoveUnmarks(token, rest, false);
      } else {
        RemoveUnmarks(token, rest, between);
      }
    }
  }

  lemma {:induction false} RemoveSkipsUnmarked(token: string, a: seq<Line>, b: seq<Line>)
    requires Unmarked(token, a)
    ensures Remove(token, a + b, false) == Prepend(a, Remove(token, b, false))
    decreases |a|
  {
    if |a| == 0 {
      assert a + b == b;
      PrependNone(Remove(token, b, false));
    } else {
      assert (a + b)[1..] == a[1..] + b && (a + b)[0] == a[0];
      RemoveSkipsUnmarked(token, a[1..], b);
      PrependTwice([a[0]], a[1..], Remove(token, b, false));
      assert a == [a[0]] + a[1..];
    }
  }

  lemma {:induction false} UpdateSkipsUnmarked(token: string, a: seq<Line>, b: seq<Line>, insert: seq<Line>)
    requires Unmarked(token, a)
    ensures Update(token, a + b, insert, false) == Prepend(a, Update(token, b, insert, false))
    decreases |a|
  {
    if |a| == 0 {
      assert a + b == b;
      PrependNone(Update(token, b, insert, false));
    } else {
      assert (a + b)[1..] == a[1..] + b && (a + b)[0] == a[0];
      UpdateSkipsUnmarked(token, a[1..], b, insert);
      PrependTwice([a[0]], a[1..], Update(token, b, insert, false));
      assert a == [a[0]] + a[1..];
    }
  }

  lemma {:induction false} UpdateDropsInside(token: string, a: seq<Line>, b: seq<Line>, insert: seq<Line>)
    requires Markless(token, a)
    ensures Update(token, a + b, insert, true) == Update(token, b, insert, true)
    decreases |a|
  {
    if |a| == 0 {
      assert a + b == b;
    } else {
      assert (a + b)[1..] == a[1..] + b && (a + b)[0] == a[0];
      UpdateDropsInside(token, a[1..], b, insert);
    }
  }

  /** Updating twice is updating once with the later lines, as long as the first lines hold no mark. */
  lemma {:induction false} LastUpdateWins(token: string, lines: seq<Line>, first: seq<Line>, second: seq<Line>, between: bool)
    requires Markless(token, first)
    requires Update(token, lines, first, between).Ok?
    ensures Update(token, Update(token, lines, first, between).value, second, between) == Update(token, lines, second, between)
    decreases |lines|
  {
    if |lines| > 0 {
      var l, rest := lines[0], lines[1..];
      var out := Update(token, lines, first, between).value;
      if l.preformatted && !between {
        LastUpdateWins(token, rest, first, second, false);
        KeptUpdatedAgain(token, l, Update(token, rest, first, false).value, second);
      } else if IsBegin(token, l) {
        LastUpdateWins(token, rest, first, second, true);
        KeptUpdatedAgain(token, l, Update(token, rest, first, true).value, second);
      } else if IsEnd(token, l) {
        LastUpdateWins(token, rest, first, second, false);
        var tail := Update(token, rest, first, false).value;
        assert out == first + [l] + tail;
        EndUpdatedAgain(token, l, tail, first, second);
      } else if between {
        LastUpdateWins(token, rest, first, second, true);
      } else {
        LastUpdateWins(token, rest, first, second, false);
        KeptUpdatedAgain(token, l, Update(token, rest, first, false).value, second);
      }
    }
  }

  /** Outside a block a line that is no end mark stays, and the rest is updated. */
  lemma {:induction false} KeptUpdatedAgain(token: string, l: Line, tail: seq<Line>, insert: seq<Line>)
    requires l.preformatted || IsBegin(token, l) || !IsEnd(token, l)
    ensures Update(token, [l] + tail, insert, false) ==
            Prepend([l], Update(token, tail, insert, !l.preformatted && IsBegin(token, l)))
  {
    assert ([l] + tail)[1..] == tail;
  }

  /** Inside a block, lines without a mark and then its end are replaced by the new lines and the end. */
  lemma {:induction false} EndUpdatedAgain(token: string, l: Line, tail: seq<Line>, inside: seq<Line>, insert: seq<Line>)
    requires Markless(token, inside) && IsEnd(token, l) && !IsBegin(token, l)
    ensures Update(token, inside + [l] + tail, insert, true) == Prepend(insert + [l], Update(token, tail, insert, false))
  {
    assert inside + [l] + tail == inside + ([l] + tail) && ([l] + tail)[1..] == tail;
    UpdateDropsInside(token, inside, [l] + tail, insert);
  }

  // ----- what the marks and flags are -----

  lemma {:induction false} MarkTexts(token: string)
    ensures BeginMark(token) == "<!-- BEGIN MUNGE: " + token + " -->"
    ensures EndMark(token) == "<!-- END MUNGE: " + token + " -->"
  {
    assert "<!-- BEGIN MUNGE:" + " " == "<!-- BEGIN MUNGE: ";
    assert "<!-- END MUNGE:" + " " == "<!-- END MUNGE: ";
  }

  lemma {:induction false} FlagsOf(s: string)
    ensures NewLine(s).data == s && !NewLine(s).preformatted
    ensures NewLine(s).header <==> |s| > 0 && s[0] == '#'
    ensures NewLine(s).beginTag <==> Contains(s, "<!-- BEGIN MUNGE:")
    ensures NewLine(s).endTag <==> Contains(s, "<!-- END MUNGE:")
  {
  }

  predicate IsSpace(c: char) {
    c == ' ' || c == '\t' || c == '\n' || c == '\r' || c == '\U{000C}'
  }

  predicate AllSpace(s: string) {
    forall i :: 0 <= i < |s| ==> IsSpace(s[i])
  }

  /** The line is space, three backquotes and a rest. */
  ghost predicate FenceWith(s: string, space: string, rest: string) {
    AllSpace(space) && s == space + "```" + rest
  }

  lemma {:induction false} SkipsSpace(space: string, s: string)
    requires AllSpace(space) && |s| > 0 && !IsSpace(s[0])
    ensures SkipSpace(space + s) == s
  {
    if |space| == 0 {
      assert space + s == s;
    } else {
      assert IsSpace(space[0]) && (space + s)[0] == space[0];
      assert (space + s)[1..] == space[1..] + s;
      SkipsSpace(space[1..], s);
    }
  }

  lemma {:induction false} SkippedSpace(s: string) returns (space: string)
    ensures AllSpace(space) && s == space + SkipSpace(s)
  {
    space := "";
    if |s| > 0 && s[0] in {' ', '\t', '\n', '\U{000C}', '\r'} {
      var rest := SkippedSpace(s[1..]);
      space := [s[0]] + rest;
      assert s == [s[0]] + s[1..];
    }
  }

  lemma {:induction false} FenceReads(s: string, space: string, rest: string)
    requires FenceWith(s, space, rest)
    ensures IsFence(s) && SkipSpace(s)[3..] == rest
  {
    var tail := "```" + rest;
    assert s == space + tail && tail[0] == '`' && tail[3..] == rest;
    SkipsSpace(space, tail);
  }

  lemma {:induction false} FenceIsRead(s: string) returns (space: string)
    requires IsFence(s)
    ensures FenceWith(s, space, SkipSpace(s)[3..])
  {
    space := SkippedSpace(s);
    assert SkipSpace(s) == "```" + SkipSpace(s)[3..];
    assert s == space + ("```" + SkipSpace(s)[3..]);
  }

  /** A fence is such a line, and an inline one has the backquotes again in its rest. */
  lemma {:induction false} FenceMeans(s: string)
    ensures IsFence(s) <==> exists space, rest :: FenceWith(s, space, rest)
    ensures IsInlineFence(s) <==> exists space, rest :: FenceWith(s, space, rest) && Contains(rest, "```")
  {
    if IsFence(s) {
      var space := FenceIsRead(s);
      assert Contains(SkipSpace(s)[3..], "```") <==> IndexFrom(SkipSpace(s)[3..], "```", 0) != -1;
    }
    forall space, rest | FenceWith(s, space, rest) ensures IsFence(s) && SkipSpace(s)[3..] == rest {
      FenceReads(s, space, rest);
    }
  }

  function Inside(s: string): Line {
    NewLine(s).(preformatted := true)
  }

  lemma {:induction false} ScanOne(s: string, tail: seq<string>, open: bool)
    ensures Scan([s] + tail, open) == [Flagged(s, open)] + Scan(tail, NextOpen(open, s))
  {
    assert ([s] + tail)[1..] == tail;
  }

  lemma {:induction false} OpenStays(inside: seq<string>)
    requires forall s :: s in inside ==> !IsFence(s)
    ensures Scan(inside, true) == MapSeq(Inside, inside) && EndOpen(inside, true)
  {
    if |inside| > 0 {
      assert inside[0] in inside;
      OpenStays(inside[1..]);
      assert MapSeq(Inside, inside) == [Inside(inside[0])] + MapSeq(Inside, inside[1..]);
    }
  }

  lemma {:induction false} InsideFence(inside: seq<string>, close: string, rest: seq<string>)
    requires IsFence(close) && forall s :: s in inside ==> !IsFence(s)
    ensures Scan(inside + ([close] + rest), true) == MapSeq(Inside, inside) + ([NewLine(close)] + Scan(rest, false))
  {
    OpenStays(inside);
    ScanConcat(Flagged, NextOpen, inside, [close] + rest, true);
    ScanOne(close, rest, true);
  }

  /** From a fence that opens up to, and not with, the next fence, lines are preformatted; other lines are not. */
  lemma {:induction false} FencedLines(s: string, inside: seq<string>, close: string, rest: seq<string>)
    requires IsFence(close) && forall l :: l in inside ==> !IsFence(l)
    ensures IsFence(s) && !IsInlineFence(s) ==>
              Scan([s] + (inside + ([close] + rest)), false) ==
                [Inside(s)] + (MapSeq(Inside, inside) + ([NewLine(close)] + Scan(rest, false)))
    ensures !IsFence(s) || IsInlineFence(s) ==> Scan([s] + rest, false) == [NewLine(s)] + Scan(rest, false)
  {
    ScanOne(s, inside + ([close] + rest), false);
    ScanOne(s, rest, false);
    InsideFence(inside, close, rest);
  }

  // ----- what becomes of a block -----

  ghost predicate Opens(token: string, l: Line) {
    !l.preformatted && l.beginTag && l.data == BeginMark(token)
  }

  ghost predicate Closes(token: string, l: Line) {
    !l.preformatted && l.endTag && l.data == EndMark(token)
  }

  function Preformatted(lines: seq<Line>): seq<Line> {
    FilterBy((l: Line) => l.preformatted, lines)
  }

  lemma {:induction false} OneMark(token: string, l: Line)
    ensures !(IsBegin(token, l) && IsEnd(token, l))
  {
    assert BeginMark(token)[5] == BeginText[5] && EndMark(token)[5] == EndText[5];
  }

  lemma {:induction false} RemoveInside(token: string, a: seq<Line>, b: seq<Line>)
    requires Unmarked(token, a)
    ensures Remove(token, a + b, true) == Prepend(Preformatted(a), Remove(token, b, true))
    decreases |a|
  {
    if |a| == 0 {
      assert a + b == b;
      PrependNone(Remove(token, b, true));
    } else {
      assert (a + b)[1..] == a[1..] + b && (a + b)[0] == a[0];
      RemoveInside(token, a[1..], b);
      PrependTwice([a[0]], Preformatted(a[1..]), Remove(token, b, true));
      assert [] + Preformatted(a[1..]) == Preformatted(a[1..]);
    }
  }

  /** A block goes with its marks and all of its text but preformatted lines; what stands around it stays. */
  lemma {:induction false} BlockIsRemoved(token: string, a: seq<Line>, begin: Line, inside: seq<Line>, end: Line, b: seq<Line>)
    requires Unmarked(token, a) && Opens(token, begin) && Unmarked(token, inside) && Closes(token, end)
    ensures Remove(token, a + ([begin] + (inside + ([end] + b))), false) ==
            Prepend(a + Preformatted(inside), Remove(token, b, false))
  {
    var rest := inside + ([end] + b);
    RemoveSkipsUnmarked(token, a, [begin] + rest);
    assert ([begin] + rest)[1..] == rest && ([end] + b)[1..] == b;
    OneMark(token, end);
    RemoveInside(token, inside, [end] + b);
    PrependTwice(a, Preformatted(inside), Remove(token, b, false));
  }

  /** Unbalanced marks are refused: an end first, a second begin, or no end. */
  lemma {:induction false} UnbalancedIsRefused(token: string, a: seq<Line>, begin: Line, inside: seq<Line>, l: Line, b: seq<Line>)
    requires Unmarked(token, a) && Opens(token, begin) && Unmarked(token, inside)
    ensures Remove(token, a + ([begin] + inside), false).Err?
    ensures Closes(token, l) ==> Remove(token, a + ([l] + b), false).Err?
    ensures Opens(token, l) ==> Remove(token, a + ([begin] + (inside + ([l] + b))), false).Err?
  {
    OneMark(token, l);
    RemoveSkipsUnmarked(token, a, [begin] + inside);
    assert ([begin] + inside)[1..] == inside && inside + [] == inside;
    RemoveInside(token, inside, []);
    RemoveSkipsUnmarked(token, a, [l] + b);
    var rest := inside + ([l] + b);
    RemoveSkipsUnmarked(token, a, [begin] + rest);
    assert ([begin] + rest)[1..] == rest;
    RemoveInside(token, inside, [l] + b);
  }

  /** Updating puts the new lines between the marks, in place of all that was there. */
  lemma {:induction false} BlockIsRefilled(
    token: string, a: seq<Line>, begin: Line, inside: seq<Line>, end: Line, b: seq<Line>, insert: seq<Line>)
    requires Unmarked(token, a) && Opens(token, begin) && Markless(token, inside) && Closes(token, end)
    ensures Update(token, a + ([begin] + (inside + ([end] + b))), insert, false) ==
            Prepend(a + [begin] + (insert + [end]), Update(token, b, insert, false))
  {
    var rest := inside + ([end] + b);
    UpdateSkipsUnmarked(token, a, [begin] + rest, insert);
    assert ([begin] + rest)[1..] == rest && ([end] + b)[1..] == b;
    OneMark(token, end);
    UpdateDropsInside(token, inside, [end] + b, insert);
    PrependTwice([begin], insert + [end], Update(token, b, insert, false));
    PrependTwice(a, [begin] + (insert + [end]), Update(token, b, insert, false));
    assert a + ([begin] + (insert + [end])) == a + [begin] + (insert + [end]);
  }
}
