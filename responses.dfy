/** How `DataEngine.dt` (zamiaai/data_engine.py:401-441) turns its arguments
    into the inputs to expand and the response code to store. */
module Responses {
  import opened Wrappers
  import opened Text
  import opened Macros
  import opened Unindent

  /** `inps`: one string, or a list of strings. */
  datatype Inputs = One(text: string) | Many(texts: seq<string>)

  /** `resp`: a list of response strings, one response string, or a Python
      function given by its source text (what `inspect.getsource` returns). */
  datatype Response = Lines(resps: seq<string>) | Single(resp: string) | Function(source: string)

  /** The Python machinery `dt` calls and that is not part of this model.
      `moduleSource(src)` is `codegen.to_source(ast.parse(src))`, or None
      when `ast.parse` raises. `firstDef(src)` is None when `ast.parse`
      raises, and otherwise the name and the regenerated source of the first
      `FunctionDef` that `ast.walk` meets, if there is one. */
  datatype Codegen = Codegen(moduleSource: string -> Option<string>,
                             firstDef: string -> Option<Option<(string, string)>>)

  /** `isinstance(inps, basestring)` turns one input into a list of one. */
  function InputList(inps: Inputs): (texts: seq<string>)
    ensures inps.One? ==> texts == [inps.text]
    ensures inps.Many? ==> texts == inps.texts
  {
    match inps
    case One(t) => [t]
    case Many(ts) => ts
  }

  const Header: string := "def _resp(c):"

  /** The statement generated for one response string, without its line
      break. */
  function CallLine(r: string): string
  {
    "    c.resp(u\"" + r + "\", 0.0, [])"
  }

  /** `src_txt` after the loop at data_engine.py:409-411. */
  function ResponseSource(rs: seq<string>): string
  {
    if |rs| == 0 then Header + "\n"
    else ResponseSource(rs[..|rs| - 1]) + CallLine(rs[|rs| - 1]) + "\n"
  }

  function CallLines(rs: seq<string>): (ls: seq<string>)
    ensures |ls| == |rs|
  {
    seq(|rs|, i requires 0 <= i < |rs| => CallLine(rs[i]))
  }

  lemma {:induction false} JoinSnoc(xs: seq<string>, x: string, sep: string)
    requires |xs| >= 1
    ensures Join(xs + [x], sep) == Join(xs, sep) + sep + x
  {
    if |xs| > 1 {
      assert (xs + [x])[1..] == xs[1..] + [x];
      JoinSnoc(xs[1..], x, sep);
    }
  }

  lemma ResponseSourceJoined(rs: seq<string>)
    ensures ResponseSource(rs) == Join([Header] + CallLines(rs) + [""], "\n")
  {
    ResponseSourceJoin(rs);
    JoinSnoc([Header] + CallLines(rs), "", "\n");
    assert Join([Header] + CallLines(rs), "\n") + "\n" + "" == Join([Header] + CallLines(rs), "\n") + "\n";
  }

  lemma {:induction false} ResponseSourceJoin(rs: seq<string>)
    ensures ResponseSource(rs) == Join([Header] + CallLines(rs), "\n") + "\n"
  {
    if |rs| > 0 {
      var n := |rs| - 1;
      ResponseSourceJoin(rs[..n]);
      assert [Header] + CallLines(rs) == [Header] + CallLines(rs[..n]) + [CallLine(rs[n])];
      JoinSnoc([Header] + CallLines(rs[..n]), CallLine(rs[n]), "\n");
    }
  }

  lemma CallLineNoBreak(r: string)
    requires '\n' !in r
    ensures '\n' !in CallLine(r)
  {
    var pre := "    c.resp(u\"";
    var post := "\", 0.0, [])";
    assert '\n' !in pre && '\n' !in post;
    assert CallLine(r) == pre + r + post;
  }

  lemma LinesNoBreak(rs: seq<string>)
    requires forall i :: 0 <= i < |rs| ==> '\n' !in rs[i]
    ensures forall i :: 0 <= i < |rs| + 2 ==> '\n' !in ([Header] + CallLines(rs) + [""])[i]
  {
    assert '\n' !in Header;
    forall i | 1 <= i <= |rs| ensures '\n' !in ([Header] + CallLines(rs) + [""])[i] {
      CallLineNoBreak(rs[i - 1]);
    }
  }

  /** The generated source is the header line, then one `c.resp` line per
      response in order, each ended by a line break: split on line breaks it
      gives exactly those lines and a final empty piece. */
  lemma ResponseSourceLines(rs: seq<string>)
    requires forall i :: 0 <= i < |rs| ==> '\n' !in rs[i]
    ensures Split(ResponseSource(rs), '\n') == [Header] + CallLines(rs) + [""]
  {
    ResponseSourceJoined(rs);
    LinesNoBreak(rs);
    SplitJoin([Header] + CallLines(rs) + [""], '\n');
  }

  /** The response code and the function name `dt` hands on, or the error
      that stops it: `ast.parse` rejecting the source, or a response function
      whose source holds no `def`. */
  function ResponseCode(cg: Codegen, resp: Response): (res: Result<(string, string), Error>)
    ensures res.Err? ==> res.error == BadSource || res.error == NoFunctionDef
    ensures res == Err(NoFunctionDef) ==> resp.Function?
    ensures res.Ok? && !resp.Function? ==> res.value.1 == "_resp"
  {
    match resp
    case Lines(rs) =>
      (match cg.moduleSource(ResponseSource(rs))
       case None => Err(BadSource)
       case Some(code) => Ok((code, "_resp")))
    case Single(r) =>
      (match cg.moduleSource(ResponseSource([r]))
       case None => Err(BadSource)
       case Some(code) => Ok((code, "_resp")))
    case Function(src) =>
      (match cg.firstDef(Unindented(src))
       case None => Err(BadSource)
       case Some(None) => Err(NoFunctionDef)
       case Some(Some(def)) => Ok((def.1, def.0)))
  }

  /** The loop at data_engine.py:409-411. */
  method BuildSource(rs: seq<string>) returns (src: string)
    ensures src == ResponseSource(rs)
  {
    src := Header + "\n";
    for i := 0 to |rs|
      invariant src == ResponseSource(rs[..i])
    {
      src := src + CallLine(rs[i]) + "\n";
      assert rs[..i + 1][..i] == rs[..i];
    }
    assert rs[..|rs|] == rs;
  }

  /** The response half of `dt` (data_engine.py:407-431). */
  method TransformResponse(cg: Codegen, resp: Response) returns (res: Result<(string, string), Error>)
    ensures res == ResponseCode(cg, resp)
  {
    match resp {
      case Lines(rs) =>
        var src := BuildSource(rs);
        var code := cg.moduleSource(src);
        if code.None? {
          return Err(BadSource);
        }
        res := Ok((code.value, "_resp"));
      case Single(r) =>
        var src := Header + "\n" + CallLine(r) + "\n";
        assert [r][..0] == [];
        assert src == ResponseSource([r]);
        var code := cg.moduleSource(src);
        if code.None? {
          return Err(BadSource);
        }
        res := Ok((code.value, "_resp"));
      case Function(source) =>
        var src := Unindent.Unindent(source);
        var def := cg.firstDef(src);
        if def.None? {
          return Err(BadSource);
        }
        if def.value.None? {
          return Err(NoFunctionDef);
        }
        res := Ok((def.value.value.1, def.value.value.0));
    }
  }
}
