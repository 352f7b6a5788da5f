/** The loop of `AIKernal.process_input` (ai_kernal.py:673-693) that turns
    the predicate names the network decodes into the text of a Prolog query:
    names starting with `_` (such as `_EOS`) are dropped, `or` joins the
    next name with `; ` instead of `, `, and nothing precedes the first
    name. */
module Query {
  import opened Wrappers
  import opened Text
  import opened Terms

  /** The loop from the state `(prolog_s, do_and)` over the remaining
      names. `p[0]` of an empty name raises. */
  function QueryFrom(s: string, doAnd: bool, preds: seq<string>): Result<string, KError>
    decreases |preds|
  {
    if |preds| == 0 then Ok(s)
    else
      var p := preds[0];
      if |p| == 0 then Err(EmptyPred)
      else if p[0] == '_' then QueryFrom(s, doAnd, preds[1..])
      else if p == "or" then QueryFrom(s, false, preds[1..])
      else
        var sep := if |s| > 0 then (if doAnd then ", " else "; ") else "";
        QueryFrom(s + sep + p, true, preds[1..])
  }

  /** The query text `process_input` builds, or the error it raises. */
  function QueryOf(preds: seq<string>): Result<string, KError>
  {
    QueryFrom("", true, preds)
  }

  /** The loop as written: `prolog_s` and `do_and` updated name by name. */
  method BuildQuery(preds: seq<string>) returns (res: Result<string, KError>)
    ensures res == QueryOf(preds)
  {
    var prologS := "";
    var doAnd := true;
    var i := 0;
    while i < |preds|
      invariant 0 <= i <= |preds|
      invariant QueryFrom(prologS, doAnd, preds[i..]) == QueryOf(preds)
    {
      var p := preds[i];
      assert preds[i..][1..] == preds[i + 1..];
      if |p| == 0 {
        return Err(EmptyPred);
      }
      if p[0] == '_' {
        i := i + 1;
        continue;
      }
      if p == "or" {
        doAnd := false;
        i := i + 1;
        continue;
      }
      if |prologS| > 0 {
        if doAnd {
          prologS := prologS + ", ";
        } else {
          prologS := prologS + "; ";
        }
      }
      prologS := prologS + p;
      doAnd := true;
      i := i + 1;
    }
    res := Ok(prologS);
  }

  // An independent description of the same text: first pick out the names
  // that are emitted, each marked by whether an `or` came since the
  // previous emitted name, then write them out with their separators.

  /** The emitted names, each with "an `or` is pending before it". */
  function Emitted(preds: seq<string>, pending: bool): (items: seq<(bool, string)>)
    ensures forall i :: 0 <= i < |items| ==> items[i].1 in preds && items[i].1 != "or"
  {
    if |preds| == 0 then []
    else if |preds[0]| > 0 && preds[0][0] == '_' then Emitted(preds[1..], pending)
    else if preds[0] == "or" then Emitted(preds[1..], true)
    else [(pending, preds[0])] + Emitted(preds[1..], false)
  }

  /** The items written out; `started` says whether text precedes them. */
  function Render(items: seq<(bool, string)>, started: bool): string
  {
    if |items| == 0 then ""
    else
      (if started then (if items[0].0 then "; " else ", ") else "") + items[0].1 + Render(items[1..], true)
  }

  /** The loop and the two-step description agree from every state, as
      long as no name is empty. */
  lemma {:induction false} QueryFromRender(s: string, doAnd: bool, preds: seq<string>)
    requires forall i :: 0 <= i < |preds| ==> |preds[i]| > 0
    ensures QueryFrom(s, doAnd, preds) == Ok(s + Render(Emitted(preds, !doAnd), |s| > 0))
    decreases |preds|
  {
    if |preds| == 0 {
      assert s + "" == s;
    } else {
      var p := preds[0];
      if p[0] == '_' {
        QueryFromRender(s, doAnd, preds[1..]);
      } else if p == "or" {
        QueryFromRender(s, false, preds[1..]);
      } else {
        var sep := if |s| > 0 then (if doAnd then ", " else "; ") else "";
        QueryFromRender(s + sep + p, true, preds[1..]);
        assert s + sep + p + Render(Emitted(preds[1..], false), true) ==
               s + (sep + p + Render(Emitted(preds[1..], false), true));
      }
    }
  }

  /** `process_input` raises exactly when some name is empty; otherwise the
      query is the emitted names with their separators. */
  lemma QueryOfSpec(preds: seq<string>)
    ensures QueryOf(preds).Err? <==> exists i :: 0 <= i < |preds| && preds[i] == ""
    ensures QueryOf(preds).Ok? ==> QueryOf(preds).value == Render(Emitted(preds, false), false)
  {
    if forall i :: 0 <= i < |preds| ==> |preds[i]| > 0 {
      QueryFromRender("", true, preds);
      assert "" + Render(Emitted(preds, false), false) == Render(Emitted(preds, false), false);
    } else {
      var i :| 0 <= i < |preds| && |preds[i]| == 0;
      QueryFromFails("", true, preds, i);
    }
  }

  /** An empty name raises, wherever it stands. */
  lemma {:induction false} QueryFromFails(s: string, doAnd: bool, preds: seq<string>, i: nat)
    requires i < |preds| && preds[i] == ""
    ensures QueryFrom(s, doAnd, preds).Err?
    decreases |preds|
  {
    if i > 0 && |preds[0]| > 0 {
      var p := preds[0];
      var sep := if |s| > 0 then (if doAnd then ", " else "; ") else "";
      var s' := if p[0] == '_' || p == "or" then s else s + sep + p;
      var d' := if p[0] == '_' then doAnd else if p == "or" then false else true;
      QueryFromFails(s', d', preds[1..], i - 1);
    }
  }

  /** Without `or` and without `_` names the query is the names joined by
      `, `. */
  lemma {:induction false} QueryPlain(preds: seq<string>)
    requires forall i :: 0 <= i < |preds| ==> |preds[i]| > 0 && preds[i][0] != '_' && preds[i] != "or"
    ensures QueryOf(preds) == Ok(Join(preds, ", "))
  {
    QueryOfSpec(preds);
    RenderPlain(preds, false);
  }

  lemma {:induction false} RenderPlain(preds: seq<string>, pending: bool)
    requires forall i :: 0 <= i < |preds| ==> |preds[i]| > 0 && preds[i][0] != '_' && preds[i] != "or"
    ensures Render(Emitted(preds, pending), false) == Join(preds, ", ")
    ensures |preds| > 0 ==> Render(Emitted(preds, false), true) == ", " + Join(preds, ", ")
    decreases |preds|
  {
    if |preds| > 0 {
      var p := preds[0];
      var tl := preds[1..];
      var rest := Emitted(tl, false);
      assert |p| > 0 && p[0] != '_' && p != "or";
      assert Emitted(preds, pending) == [(pending, p)] + rest;
      assert Emitted(preds, false) == [(false, p)] + rest;
      RenderPlain(tl, false);
      var r := Render(rest, true);
      assert Render(Emitted(preds, pending), false) == "" + p + r;
      assert Render(Emitted(preds, false), true) == ", " + p + r;
      assert "" + p == p;
      if |tl| == 0 {
        assert rest == [] && r == "";
        assert p + "" == p && ", " + p + "" == ", " + p;
      } else {
        var j := Join(tl, ", ");
        assert r == ", " + j;
        assert Join(preds, ", ") == p + ", " + j;
        Assoc(p, ", ", j);
        Assoc(", ", p, ", " + j);
        Assoc(", ", p + ", ", j);
        Assoc(", ", p, ", ");
      }
    }
  }

  lemma Assoc(a: string, b: string, c: string)
    ensures a + b + c == a + (b + c)
  {
  }

  /** The names starting with `_` play no part at all: dropping one changes
      nothing. */
  lemma {:induction false} QueryUnderscore(xs: seq<string>, u: string, ys: seq<string>)
    requires |u| > 0 && u[0] == '_'
    ensures QueryOf(xs + [u] + ys) == QueryOf(xs + ys)
  {
    UnderscoreFrom("", true, xs, u, ys);
  }

  lemma {:induction false} UnderscoreFrom(s: string, doAnd: bool, xs: seq<string>, u: string, ys: seq<string>)
    requires |u| > 0 && u[0] == '_'
    ensures QueryFrom(s, doAnd, xs + [u] + ys) == QueryFrom(s, doAnd, xs + ys)
    decreases |xs|
  {
    if |xs| == 0 {
      assert (xs + [u] + ys)[1..] == xs + ys;
    } else {
      assert (xs + [u] + ys)[0] == (xs + ys)[0] == xs[0];
      assert (xs + [u] + ys)[1..] == xs[1..] + [u] + ys;
      assert (xs + ys)[1..] == xs[1..] + ys;
      var p := xs[0];
      if |p| > 0 {
        var sep := if |s| > 0 then (if doAnd then ", " else "; ") else "";
        var s' := if p[0] == '_' || p == "or" then s else s + sep + p;
        var d' := if p[0] == '_' then doAnd else if p == "or" then false else true;
        UnderscoreFrom(s', d', xs[1..], u, ys);
      }
    }
  }

  /** An `or` before a name makes its separator `; `; an `or` at the very
      start, before anything was emitted, is lost. */
  lemma QueryOr(xs: seq<string>, p: string)
    requires QueryOf(xs).Ok? && QueryOf(xs).value != ""
    requires |p| > 0 && p[0] != '_' && p != "or"
    ensures QueryOf(xs + ["or", p]) == Ok(QueryOf(xs).value + "; " + p)
  {
    OrFrom("", true, xs, p);
  }

  lemma {:induction false} OrFrom(s: string, doAnd: bool, xs: seq<string>, p: string)
    requires QueryFrom(s, doAnd, xs).Ok? && QueryFrom(s, doAnd, xs).value != ""
    requires |p| > 0 && p[0] != '_' && p != "or"
    ensures QueryFrom(s, doAnd, xs + ["or", p]) == Ok(QueryFrom(s, doAnd, xs).value + "; " + p)
    decreases |xs|
  {
    if |xs| == 0 {
      OrThenName(s, doAnd, p);
      assert xs + ["or", p] == ["or", p];
    } else {
      assert (xs + ["or", p])[1..] == xs[1..] + ["or", p];
      var q := xs[0];
      var sep := if |s| > 0 then (if doAnd then ", " else "; ") else "";
      var s' := if q[0] == '_' || q == "or" then s else s + sep + q;
      var d' := if q[0] == '_' then doAnd else if q == "or" then false else true;
      OrFrom(s', d', xs[1..], p);
    }
  }

  lemma QueryLeadingOr(p: string)
    requires |p| > 0 && p[0] != '_' && p != "or"
    ensures QueryOf(["or", p]) == Ok(p)
  {
    OrThenName("", true, p);
    assert "" + "" + p == p;
  }

  lemma OrThenName(s: string, doAnd: bool, p: string)
    requires |p| > 0 && p[0] != '_' && p != "or"
    ensures QueryFrom(s, doAnd, ["or", p]) == Ok(s + (if |s| > 0 then "; " else "") + p)
  {
    var o := "or";
    assert |o| == 2 && o[0] == 'o';
    assert ["or", p][0] == o && ["or", p][1..] == [p];
    assert QueryFrom(s, doAnd, ["or", p]) == QueryFrom(s, false, [p]);
    assert [p][1..] == [];
    var sep := if |s| > 0 then "; " else "";
    assert QueryFrom(s, false, [p]) == QueryFrom(s + sep + p, true, []);
  }
}
