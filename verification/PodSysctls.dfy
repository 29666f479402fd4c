/** The sysctl annotation codec of pkg/api/helpers.go. */
module PodSysctls {
  import opened Strings
  import opened Wrappers

  datatype Sysctl = Sysctl(name: string, value: string)

  function ParseOne(kv: string): Result<Sysctl> {
    var cs := Split(kv, "=");
    if |cs| != 2 || |cs[0]| == 0 then Err else Ok(Sysctl(cs[0], cs[1]))
  }

  function ParseAll(kvs: seq<string>): (r: Result<seq<Sysctl>>)
    ensures r.Ok? ==> |r.value| == |kvs|
  {
    if |kvs| == 0 then Ok([])
    else
      match (ParseOne(kvs[0]), ParseAll(kvs[1..]))
      case (Ok(s), Ok(rest)) => Ok([s] + rest)
      case (_, _) => Err
  }

  function Parse(annotation: string): Result<seq<Sysctl>> {
    if |annotation| == 0 then Ok([]) else ParseAll(Split(annotation, ","))
  }

  function FormatOne(s: Sysctl): string {
    s.name + "=" + s.value
  }

  function FormatAll(sysctls: seq<Sysctl>): (kvs: seq<string>)
    ensures |kvs| == |sysctls|
    ensures forall i :: 0 <= i < |kvs| ==> kvs[i] == FormatOne(sysctls[i])
  {
    if |sysctls| == 0 then [] else [FormatOne(sysctls[0])] + FormatAll(sysctls[1..])
  }

  function Format(sysctls: seq<Sysctl>): string {
    Join(FormatAll(sysctls), ",")
  }

  // ----- the loops of the source -----

  method SysctlsFromPodAnnotation(annotation: string) returns (r: Result<seq<Sysctl>>)
    ensures r == Parse(annotation)
  {
    if |annotation| == 0 {
      return Ok([]);
    }
    var kvs := Split(annotation, ",");
    var sysctls := new Sysctl[|kvs|];
    assert kvs[0..] == kvs && forall rest: seq<Sysctl> :: sysctls[..0] + rest == rest;
    for i := 0 to |kvs|
      invariant ParseAll(kvs) ==
                  (match ParseAll(kvs[i..]) case Ok(rest) => Ok(sysctls[..i] + rest) case Err => Err)
    {
      var cs := Split(kvs[i], "=");
      assert kvs[i..][1..] == kvs[i + 1..];
      if |cs| != 2 || |cs[0]| == 0 {
        return Err;
      }
      ghost var before := sysctls[..i];
      sysctls[i] := Sysctl(cs[0], cs[1]);
      assert sysctls[..i + 1] == before + [sysctls[i]];
      assert forall rest: seq<Sysctl> :: before + ([sysctls[i]] + rest) == sysctls[..i + 1] + rest;
    }
    assert kvs[|kvs|..] == [] && sysctls[..|kvs|] + [] == sysctls[..];
    r := Ok(sysctls[..]);
  }

  method PodAnnotationsFromSysctls(sysctls: seq<Sysctl>) returns (annotation: string)
    ensures annotation == Format(sysctls)
  {
    if |sysctls| == 0 {
      return "";
    }
    var kvs := new string[|sysctls|];
    for i := 0 to |sysctls|
      invariant forall j :: 0 <= j < i ==> kvs[j] == FormatOne(sysctls[j])
    {
      kvs[i] := sysctls[i].name + "=" + sysctls[i].value;
    }
    assert kvs[..] == FormatAll(sysctls);
    annotation := Join(kvs[..], ",");
  }

  // ----- the round trips -----

  ghost predicate Clean(s: Sysctl) {
    && |s.name| > 0
    && '=' !in s.name && '=' !in s.value
    && ',' !in s.name && ',' !in s.value
  }

  lemma {:induction false} OneReadsBack(s: Sysctl)
    requires |s.name| > 0 && '=' !in s.name && '=' !in s.value
    ensures ParseOne(FormatOne(s)) == Ok(s)
  {
    SplitFirstChar(s.name, '=', s.value);
    NoCharSplit(s.value, '=');
  }

  /** An accepted piece is spelled by the sysctl it became, which is as clean as the piece allows. */
  lemma {:induction false} OneParsed(kv: string)
    requires ParseOne(kv).Ok? && ',' !in kv
    ensures FormatOne(ParseOne(kv).value) == kv && Clean(ParseOne(kv).value)
  {
    var s := ParseOne(kv).value;
    JoinSplit(kv, "=");
    var cs := Split(kv, "=");
    assert cs == [s.name, s.value] && cs[1..] == [s.value];
    PartsHaveNoSep(kv, '=');
    assert s.name in cs && s.value in cs;
    assert s.name == kv[..|s.name|] && s.value == kv[|s.name| + 1..];
  }

  lemma {:induction false} AllParsed(kvs: seq<string>)
    requires ParseAll(kvs).Ok? && forall kv :: kv in kvs ==> ',' !in kv
    ensures FormatAll(ParseAll(kvs).value) == kvs
    ensures forall s :: s in ParseAll(kvs).value ==> Clean(s)
  {
    if |kvs| > 0 {
      OneParsed(kvs[0]);
      AllParsed(kvs[1..]);
      assert kvs == [kvs[0]] + kvs[1..];
    }
  }

  /** One piece more in front of pieces that read back. */
  lemma {:induction false} OneMoreReadsBack(kv: string, kvs: seq<string>, s: Sysctl, rest: seq<Sysctl>)
    requires ParseOne(kv) == Ok(s) && ParseAll(kvs) == Ok(rest)
    ensures ParseAll([kv] + kvs) == Ok([s] + rest)
  {
    assert ([kv] + kvs)[1..] == kvs;
  }

  lemma {:induction false} AllReadBack(sysctls: seq<Sysctl>)
    requires forall s :: s in sysctls ==> Clean(s)
    ensures ParseAll(FormatAll(sysctls)) == Ok(sysctls)
  {
    if |sysctls| > 0 {
      var first, rest := sysctls[0], sysctls[1..];
      assert Clean(first);
      OneReadsBack(first);
      AllReadBack(rest);
      OneMoreReadsBack(FormatOne(first), FormatAll(rest), first, rest);
      assert sysctls == [first] + rest;
    }
  }

  /** Every accepted annotation is reproduced exactly. */
  lemma {:induction false} FormatUndoesParse(annotation: string)
    requires Parse(annotation).Ok?
    ensures Format(Parse(annotation).value) == annotation
    ensures forall s :: s in Parse(annotation).value ==> Clean(s)
  {
    if |annotation| > 0 {
      PartsHaveNoSep(annotation, ',');
      AllParsed(Split(annotation, ","));
      JoinSplit(annotation, ",");
    }
  }

  /** The lists that survive printing are those with non-empty names and no ',' or '=' anywhere. */
  lemma {:induction false} ParseUndoesFormatIffClean(sysctls: seq<Sysctl>)
    ensures Parse(Format(sysctls)) == Ok(sysctls) <==> forall s :: s in sysctls ==> Clean(s)
  {
    if Parse(Format(sysctls)) == Ok(sysctls) {
      FormatUndoesParse(Format(sysctls));
    }
    if (forall s :: s in sysctls ==> Clean(s)) && |sysctls| > 0 {
      var kvs := FormatAll(sysctls);
      forall kv | kv in kvs ensures ',' !in kv {
        var i :| 0 <= i < |kvs| && kvs[i] == kv;
        assert Clean(sysctls[i]);
      }
      SplitJoin(kvs, ',');
      AllReadBack(sysctls);
      assert |kvs[0]| > 0;
      assert |Join(kvs, ",")| > 0;
    }
  }

  /** The text of a list: name=value pairs with commas between. */
  lemma {:induction false} AnnotationText(a: Sysctl, b: Sysctl)
    ensures Format([a]) == a.name + "=" + a.value
    ensures Format([a, b]) == a.name + "=" + a.value + "," + b.name + "=" + b.value
  {
    assert [a][1..] == [] && [a, b][1..] == [b] && [b][1..] == [];
    var x, y := FormatOne(a), FormatOne(b);
    assert FormatAll([a, b]) == [x, y] && [x, y][1..] == [y];
    assert Join([x, y], ",") == x + "," + y;
    assert x + "," + y == a.name + "=" + a.value + "," + b.name + "=" + b.value;
  }
}
