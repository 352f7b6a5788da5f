/** `DataEngine._expand_macros` as the source runs it (zamiaai/data_engine.py:148-275):
    the scanning loop, the cutting loops and the LIFO work list, each proved
    to compute the functions of modules Template and Expansion. */
module Expander {
  import opened Wrappers
  import opened Text
  import opened Macros
  import opened Keys
  import opened Template
  import opened Expansion
  import opened Worklist

  /** `for p1 in txt2.split('{'): for p2 in p1.split('}'): parts.append(p2)`
      (data_engine.py:190-193). */
  method SplitParts(txt2: string) returns (parts: seq<string>)
    ensures parts == Parts(txt2)
  {
    var outer := Split(txt2, '{');
    SplitSpec(txt2, '{');
    parts := [];
    var k := 0;
    while k < |outer|
      invariant 0 <= k <= |outer|
      invariant parts + SplitEach(outer[k..]) == Parts(txt2)
    {
      SplitEachStep(outer, k);
      ghost var pre := parts;
      parts := AppendAll(parts, Split(outer[k], '}'));
      Assoc(pre, Split(outer[k], '}'), SplitEach(outer[k + 1..]));
      k := k + 1;
    }
  }

  /** `for p2 in ps: parts.append(p2)`. */
  method AppendAll(parts: seq<string>, ps: seq<string>) returns (res: seq<string>)
    ensures res == parts + ps
  {
    res := parts;
    var l := 0;
    while l < |ps|
      invariant 0 <= l <= |ps|
      invariant res == parts + ps[..l]
    {
      assert ps[..l + 1] == ps[..l] + [ps[l]];
      res := res + [ps[l]];
      l := l + 1;
    }
    assert ps[..l] == ps;
  }

  lemma Assoc(a: seq<string>, b: seq<string>, c: seq<string>)
    ensures a + b + c == a + (b + c)
  {
  }

  lemma SplitEachStep(outer: seq<string>, k: nat)
    requires k < |outer| && forall i :: 0 <= i < |outer| ==> '{' !in outer[i]
    ensures SplitEach(outer[k..]) == Split(outer[k], '}') + SplitEach(outer[k + 1..])
  {
    assert outer[k..][1..] == outer[k + 1..];
  }

  /** The `mpnn` loop (data_engine.py:243-248). */
  method FindFreeOcc(mpos: MPos, name: string) returns (m: nat)
    ensures m == FreeOcc(mpos, name, 0)
  {
    m := 0;
    while StartKey(name, m) in mpos
      invariant forall j :: 0 <= j < m ==> StartKey(name, j) in mpos
      invariant FreeOcc(mpos, name, m) == FreeOcc(mpos, name, 0)
      decreases |mpos| - m
    {
      StartKeysBound(mpos, name, m + 1);
      m := m + 1;
    }
  }

  /** `for vn3 in r3: mpos1[...] = r3[vn3]` (data_engine.py:258-259). */
  method RecordVars(mpos: MPos, name: string, m: nat, v: Variant) returns (res: MPos)
    ensures res == Record(mpos, name, m, v, 0)
  {
    res := mpos;
    var i := 0;
    while i < |v|
      invariant 0 <= i <= |v|
      invariant Record(res, name, m, v, i) == Record(mpos, name, m, v, 0)
    {
      res := res[VarKey(name, m, Lower(v[i].name)) := Val(v[i].value)];
      i := i + 1;
    }
  }

  /** The body of `for r3 in macro` for the slot `id` (data_engine.py:235-261). */
  method TakeSlot(env: Env, st: State, name: string, vn: string, id: nat, store: Store)
    returns (res: Result<(State, Store), Error>)
    requires id < |store| && Slots(st, store)
    ensures res == Take(env, st, name, vn, FreeOcc(st.mpos, name, 0), id, store)
  {
    var mpnn := FindFreeOcc(st.mpos, name);
    var r1 := st.r;
    var mpos1 := st.mpos[StartKey(name, mpnn) := Pos(|r1|)];
    var s3 := GetVar(store[id], vn);
    if s3.None? {
      return Err(MissingVar(name, vn));
    }
    var v, toks := CacheTokens(env.tok, env.lang, store[id], vn, s3.value);
    var succ := Extend(st, name, mpnn, id, r1, mpos1, v, toks);
    TakeIs(env, st, name, vn, mpnn, id, store, s3.value);
    res := Ok((succ, store[id := v]));
  }

  /** `r1.extend(r3[vn])`, the end of the span, the variables and the
      binding (data_engine.py:255-261). */
  method Extend(st: State, name: string, mpnn: nat, id: nat, r: seq<string>, mpos: MPos, v: Variant, toks: seq<string>)
    returns (succ: State)
    requires r == st.r && mpos == st.mpos[StartKey(name, mpnn) := Pos(|st.r|)]
    ensures succ == Successor(st, name, mpnn, id, v, toks)
  {
    var r1 := r + toks;
    var mpos1 := mpos[EndKey(name, mpnn) := Pos(|r1|)];
    mpos1 := RecordVars(mpos1, name, mpnn, v);
    succ := State(st.cnt + 1, r1, mpos1, st.bound[name := id]);
  }

  /** `s3 = r3[vn]; if isinstance(s3, basestring): s3 = tokenize(s3); r3[vn] = s3`
      (data_engine.py:251-254): the variant afterwards and the tokens. */
  method CacheTokens(tok: Tokenizer, lang: string, v: Variant, vn: string, val: Value) returns (w: Variant, toks: seq<string>)
    ensures toks == TokensOf(tok, lang, val)
    ensures w == if val.Str? then SetVar(v, vn, Toks(toks)) else v
  {
    w := v;
    match val
    case Str(s) =>
      toks := tok.plain(s, lang);
      w := SetVar(w, vn, Toks(toks));
    case Toks(t) =>
      toks := t;
  }

  /** Take once the variable's value is known. */
  lemma TakeIs(env: Env, st: State, name: string, vn: string, m: nat, id: nat, store: Store, val: Value)
    requires id < |store| && Slots(st, store) && GetVar(store[id], vn) == Some(val)
    ensures Take(env, st, name, vn, m, id, store) ==
      Ok((Successor(st, name, m, id, if val.Str? then SetVar(store[id], vn, Toks(TokensOf(env.tok, env.lang, val))) else store[id],
            TokensOf(env.tok, env.lang, val)),
          store[id := if val.Str? then SetVar(store[id], vn, Toks(TokensOf(env.tok, env.lang, val))) else store[id]]))
  {
  }

  /** The fan-out over the variant slots `ids` (data_engine.py:235-261): each
      successor is pushed in turn; a raw string is tokenised and written back
      into its slot, which the later successors and items share. */
  method FanOut(env: Env, st: State, name: string, vn: string, ids: seq<nat>, store: Store)
    returns (res: Result<(seq<State>, Store), Error>)
    requires forall j :: 0 <= j < |ids| ==> ids[j] < |store|
    requires Slots(st, store)
    ensures res == FanFrom(env, st, name, vn, FreeOcc(st.mpos, name, 0), ids, 0, store, [])
  {
    var succs: seq<State> := [];
    var cur := store;
    var k := 0;
    while k < |ids|
      invariant 0 <= k <= |ids| && forall j :: 0 <= j < |ids| ==> ids[j] < |cur|
      invariant Slots(st, cur)
      invariant forall x :: x in succs ==> x.cnt == st.cnt + 1 && Slots(x, cur)
      invariant FanFrom(env, st, name, vn, FreeOcc(st.mpos, name, 0), ids, k, cur, succs) ==
        FanFrom(env, st, name, vn, FreeOcc(st.mpos, name, 0), ids, 0, store, [])
    {
      var t := TakeSlot(env, st, name, vn, ids[k], cur);
      if t.Err? {
        return t.PropagateFailure();
      }
      FanStep(env, st, name, vn, FreeOcc(st.mpos, name, 0), ids, k, cur, succs);
      cur := t.value.1;
      succs := succs + [t.value.0];
      k := k + 1;
    }
    res := Ok((succs, cur));
  }

  /** One pop of an unfinished item (data_engine.py:203-273). */
  method ExpandItem(env: Env, parts: seq<string>, x: State, store: Store) returns (res: Result<(seq<State>, Store), Error>)
    requires x.cnt < |parts| && Slots(x, store)
    ensures res == Step(env, parts, x, store)
  {
    var p1 := parts[x.cnt];
    if x.cnt % 2 == 1 {
      var sub := Split(p1, ':');
      CallSplit(p1);
      if |sub| != 2 {
        return Err(BadCall(p1));
      }
      var name := sub[0];
      if name == EMPTY {
        return Ok(([State(x.cnt + 1, x.r, x.mpos, x.bound)], store));
      }
      var vn := sub[1];
      if name in x.bound {
        res := FanOut(env, x, name, vn, [x.bound[name]], store);
      } else {
        var macro := env.named(name);
        if |macro| == 0 && name in env.implicit {
          macro := env.implicit[name];
        }
        if |macro| == 0 {
          return Err(UnknownMacro(name, env.lang));
        }
        SlotsGrow([x], store, store + macro);
        res := FanOut(env, x, name, vn, Range(|store|, |macro|), store + macro);
      }
    } else {
      var subParts := env.tok.noPunct(p1, env.lang);
      res := Ok(([State(x.cnt + 1, x.r + subParts, x.mpos, x.bound)], store));
    }
  }

  /** The work list loop (data_engine.py:195-275): pop the last item, keep
      it when all parts are consumed, else push its successors. */
  method RunWorklist(env: Env, parts: seq<string>) returns (res: Result<seq<(seq<string>, MPos)>, Error>)
    ensures res == Expand(env, parts)
  {
    var done: seq<State> := [];
    var todo: seq<State> := [Init()];
    var store: Store := [];
    RunAllOne(env, parts, Init(), []);
    while |todo| > 0
      invariant AllSlots(todo, store)
      invariant Finish(done, RunAll(env, parts, todo, store)) == Finish([], Leaves(env, parts, Init(), []))
      decreases PopsAll(env, parts, todo, store)
    {
      ghost var before := todo;
      var x := todo[|todo| - 1];
      todo := todo[..|todo| - 1];
      if x.cnt >= |parts| {
        PopFinished(env, parts, before, store, done);
        done := done + [x];
      } else {
        var step := ExpandItem(env, parts, x, store);
        if step.Err? {
          PopFails(env, parts, before, store, done);
          FinishExpand(env, parts);
          return Err(step.error);
        }
        PopStep(env, parts, before, store, step.value.0, step.value.1);
        todo := todo + step.value.0;
        store := step.value.1;
      }
    }
    assert done + [] == done;
    FinishExpand(env, parts);
    res := Ok(Proj(done));
  }

  /** Expand read off the run of the initial item. */
  lemma FinishExpand(env: Env, parts: seq<string>)
    ensures Expand(env, parts) ==
      match Finish([], Leaves(env, parts, Init(), []))
      case Err(e) => Err(e)
      case Ok(d) => Ok(Proj(d))
  {
    match Leaves(env, parts, Init(), [])
    case Err(_) =>
    case Ok(a) => assert [] + a.0 == a.0;
  }

  /** `_expand_macros(lang, txt)` (data_engine.py:148-275): the scan, the
      cutting into parts and the work list, or the first error raised. */
  method ExpandMacros(tok: Tokenizer, lang: string, named: string -> seq<Variant>, txt: string)
    returns (res: Result<seq<(seq<string>, MPos)>, Error>)
    ensures res == ExpandText(tok, lang, named, txt)
  {
    var scanned := ScanAlternations(tok, lang, txt);
    if scanned.Err? {
      return Err(scanned.error);
    }
    var parts := SplitParts(scanned.value.0);
    res := RunWorklist(Env(lang, tok, named, scanned.value.1), parts);
  }
}
