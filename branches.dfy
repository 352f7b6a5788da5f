/** What the enumeration of `_expand_macros` computes
    (zamiaai/data_engine.py:195-273), stated against the template: every
    completed item holds the template's tokens with each macro call replaced
    by the tokens of the variant its branch chose for that macro, one name
    always meaning one variant within a branch; there is one completed item
    per choice of variants; and a malformed or unknown call anywhere makes
    the whole expansion fail. */
module Branches {
  import opened Wrappers
  import opened Macros
  import opened Expansion

  /** The macro part `c` calls, when it is a well-formed call of a macro
      other than `empty`. */
  function CalledName(parts: seq<string>, c: nat): Option<string>
    requires c < |parts|
  {
    if c % 2 == 1 && Call(parts[c]).Some? && Call(parts[c]).value.0 != EMPTY then Some(Call(parts[c]).value.0)
    else None
  }

  /** The names called below position `n`. */
  function NamesBelow(parts: seq<string>, n: nat): set<string>
    requires n <= |parts|
  {
    if n == 0 then {}
    else if CalledName(parts, n - 1).Some? then NamesBelow(parts, n - 1) + {CalledName(parts, n - 1).value}
    else NamesBelow(parts, n - 1)
  }

  /** The tokens of variable `vn` of the variant a branch binds `name` to. */
  function SlotTokens(env: Env, store: Store, bound: map<string, nat>, name: string, vn: string): seq<string>
  {
    if name in bound && bound[name] < |store| then
      match GetVar(store[bound[name]], vn)
      case None => []
      case Some(val) => TokensOf(env.tok, env.lang, val)
    else []
  }

  /** The tokens part `c` of the template contributes: a literal part its
      punctuation-free tokens, a call the tokens of the chosen variant's
      variable, `empty` nothing. */
  function Piece(env: Env, parts: seq<string>, c: nat, bound: map<string, nat>, store: Store): seq<string>
    requires c < |parts|
  {
    if c % 2 == 0 then env.tok.noPunct(parts[c], env.lang)
    else if CalledName(parts, c).Some? then SlotTokens(env, store, bound, Call(parts[c]).value.0, Call(parts[c]).value.1)
    else []
  }

  /** The first `n` parts of the template rendered under one choice. */
  function Render(env: Env, parts: seq<string>, n: nat, bound: map<string, nat>, store: Store): seq<string>
    requires n <= |parts|
  {
    if n == 0 then [] else Render(env, parts, n - 1, bound, store) + Piece(env, parts, n - 1, bound, store)
  }

  /** A work item that has rendered the first `cnt` parts, binding exactly the
      names called among them. */
  predicate Good(env: Env, parts: seq<string>, x: State, store: Store)
  {
    x.cnt <= |parts| && Slots(x, store) && x.bound.Keys == NamesBelow(parts, x.cnt) &&
    x.r == Render(env, parts, x.cnt, x.bound, store)
  }

  lemma PieceStable(env: Env, parts: seq<string>, c: nat, b1: map<string, nat>, s1: Store, b2: map<string, nat>, s2: Store)
    requires c < |parts|
    requires CalledName(parts, c).Some? ==>
      var k := CalledName(parts, c).value; k in b1 && k in b2 && b2[k] == b1[k] && b1[k] < |s1|
    requires StoreRefines(env.tok, env.lang, s1, s2)
    ensures Piece(env, parts, c, b1, s1) == Piece(env, parts, c, b2, s2)
  {
    if c % 2 == 1 && CalledName(parts, c).Some? {
      var k := CalledName(parts, c).value;
      VarTokensStable(env.tok, env.lang, s1[b1[k]], s2[b1[k]], Call(parts[c]).value.1);
    }
  }

  /** A rendering depends only on the slots of the names it calls, and caching
      a tokenisation does not change it. */
  lemma {:induction false} RenderStable(env: Env, parts: seq<string>, n: nat, b1: map<string, nat>, s1: Store,
    b2: map<string, nat>, s2: Store)
    requires n <= |parts|
    requires forall k :: k in NamesBelow(parts, n) ==> k in b1 && k in b2 && b2[k] == b1[k] && b1[k] < |s1|
    requires StoreRefines(env.tok, env.lang, s1, s2)
    ensures Render(env, parts, n, b1, s1) == Render(env, parts, n, b2, s2)
  {
    if n > 0 {
      RenderStable(env, parts, n - 1, b1, s1, b2, s2);
      PieceStable(env, parts, n - 1, b1, s1, b2, s2);
    }
  }

  lemma GoodRefines(env: Env, parts: seq<string>, x: State, s1: Store, s2: Store)
    requires Good(env, parts, x, s1) && StoreRefines(env.tok, env.lang, s1, s2)
    ensures Good(env, parts, x, s2)
  {
    RenderStable(env, parts, x.cnt, x.bound, s1, x.bound, s2);
  }

  lemma AllGoodRefines(env: Env, parts: seq<string>, xs: seq<State>, c: nat, s1: Store, s2: Store)
    requires forall y :: y in xs ==> y.cnt == c && Slots(y, s1) && Good(env, parts, y, s1)
    requires StoreRefines(env.tok, env.lang, s1, s2)
    ensures forall y :: y in xs ==> y.cnt == c && Slots(y, s2) && Good(env, parts, y, s2)
  {
    forall y | y in xs
      ensures Slots(y, s2) && Good(env, parts, y, s2)
    {
      GoodRefines(env, parts, y, s1, s2);
    }
  }

  /** The successor for one variant renders one more part. */
  lemma TakeGood(env: Env, parts: seq<string>, x: State, name: string, vn: string, m: nat, id: nat, store: Store)
    requires Good(env, parts, x, store) && x.cnt < |parts| && x.cnt % 2 == 1
    requires Call(parts[x.cnt]) == Some((name, vn)) && name != EMPTY
    requires id < |store| && (name in x.bound ==> id == x.bound[name])
    requires Take(env, x, name, vn, m, id, store).Ok?
    ensures Good(env, parts, Take(env, x, name, vn, m, id, store).value.0, Take(env, x, name, vn, m, id, store).value.1)
  {
    TakeCaches(env, x, name, vn, m, id, store);
    PieceCall(env, parts, x.cnt, name, vn, Take(env, x, name, vn, m, id, store).value.0.bound,
      Take(env, x, name, vn, m, id, store).value.1);
    GoodAfter(env, parts, x, store, name, id, TokensOf(env.tok, env.lang, GetVar(store[id], vn).value),
      Take(env, x, name, vn, m, id, store).value.0, Take(env, x, name, vn, m, id, store).value.1);
  }

  /** An item that renders part `cnt` as `toks` and binds its name to `id`. */
  lemma GoodAfter(env: Env, parts: seq<string>, x: State, store: Store, name: string, id: nat, toks: seq<string>,
    y: State, store2: Store)
    requires Good(env, parts, x, store) && x.cnt < |parts| && CalledName(parts, x.cnt) == Some(name)
    requires name in x.bound ==> id == x.bound[name]
    requires y.cnt == x.cnt + 1 && y.r == x.r + toks && y.bound == x.bound[name := id]
    requires Slots(y, store2) && StoreRefines(env.tok, env.lang, store, store2)
    requires Piece(env, parts, x.cnt, y.bound, store2) == toks
    ensures Good(env, parts, y, store2)
  {
    RenderStable(env, parts, x.cnt, x.bound, store, y.bound, store2);
  }

  /** After a successor is taken its slot holds the variable as tokens. */
  lemma TakeCaches(env: Env, x: State, name: string, vn: string, m: nat, id: nat, store: Store)
    requires id < |store| && Slots(x, store)
    requires Take(env, x, name, vn, m, id, store).Ok?
    ensures id < |Take(env, x, name, vn, m, id, store).value.1|
    ensures GetVar(Take(env, x, name, vn, m, id, store).value.1[id], vn) ==
      Some(Toks(TokensOf(env.tok, env.lang, GetVar(store[id], vn).value)))
    ensures Take(env, x, name, vn, m, id, store).value.0.bound == x.bound[name := id]
    ensures Take(env, x, name, vn, m, id, store).value.0.r == x.r + TokensOf(env.tok, env.lang, GetVar(store[id], vn).value)
  {
  }

  lemma PieceCall(env: Env, parts: seq<string>, c: nat, name: string, vn: string, bound: map<string, nat>, store: Store)
    requires c < |parts| && c % 2 == 1 && Call(parts[c]) == Some((name, vn)) && name != EMPTY
    requires name in bound && bound[name] < |store| && GetVar(store[bound[name]], vn).Some?
    ensures Piece(env, parts, c, bound, store) == TokensOf(env.tok, env.lang, GetVar(store[bound[name]], vn).value)
  {
  }

  lemma {:induction false} FanGood(env: Env, parts: seq<string>, x: State, name: string, vn: string, m: nat,
    ids: seq<nat>, i: nat, store: Store, acc: seq<State>)
    requires Good(env, parts, x, store) && x.cnt < |parts| && x.cnt % 2 == 1
    requires Call(parts[x.cnt]) == Some((name, vn)) && name != EMPTY
    requires i <= |ids| && forall j :: 0 <= j < |ids| ==> ids[j] < |store|
    requires name in x.bound ==> forall j :: 0 <= j < |ids| ==> ids[j] == x.bound[name]
    requires forall y :: y in acc ==> y.cnt == x.cnt + 1 && Slots(y, store) && Good(env, parts, y, store)
    ensures FanFrom(env, x, name, vn, m, ids, i, store, acc).Ok? ==>
      forall y :: y in FanFrom(env, x, name, vn, m, ids, i, store, acc).value.0 ==>
        Good(env, parts, y, FanFrom(env, x, name, vn, m, ids, i, store, acc).value.1)
    decreases |ids| - i
  {
    if i < |ids| && Take(env, x, name, vn, m, ids[i], store).Ok? {
      FanGoodStep(env, parts, x, name, vn, m, ids, i, store, acc);
      FanStep(env, x, name, vn, m, ids, i, store, acc);
      FanGood(env, parts, x, name, vn, m, ids, i + 1, Take(env, x, name, vn, m, ids[i], store).value.1,
        acc + [Take(env, x, name, vn, m, ids[i], store).value.0]);
    }
  }

  /** After one turn of the loop, the item, the successors so far and the
      new one are all well rendered in the new store. */
  lemma FanGoodStep(env: Env, parts: seq<string>, x: State, name: string, vn: string, m: nat,
    ids: seq<nat>, i: nat, store: Store, acc: seq<State>)
    requires Good(env, parts, x, store) && x.cnt < |parts| && x.cnt % 2 == 1
    requires Call(parts[x.cnt]) == Some((name, vn)) && name != EMPTY
    requires i < |ids| && forall j :: 0 <= j < |ids| ==> ids[j] < |store|
    requires name in x.bound ==> forall j :: 0 <= j < |ids| ==> ids[j] == x.bound[name]
    requires forall y :: y in acc ==> y.cnt == x.cnt + 1 && Slots(y, store) && Good(env, parts, y, store)
    requires Take(env, x, name, vn, m, ids[i], store).Ok?
    ensures Good(env, parts, x, Take(env, x, name, vn, m, ids[i], store).value.1)
    ensures forall y :: y in acc + [Take(env, x, name, vn, m, ids[i], store).value.0] ==>
      y.cnt == x.cnt + 1 && Slots(y, Take(env, x, name, vn, m, ids[i], store).value.1) &&
      Good(env, parts, y, Take(env, x, name, vn, m, ids[i], store).value.1)
  {
    TakeGood(env, parts, x, name, vn, m, ids[i], store);
    GoodRefines(env, parts, x, store, Take(env, x, name, vn, m, ids[i], store).value.1);
    AllGoodRefines(env, parts, acc, x.cnt + 1, store, Take(env, x, name, vn, m, ids[i], store).value.1);
    FanStep(env, x, name, vn, m, ids, i, store, acc);
  }

  /** One pop keeps every item well rendered. */
  lemma StepGood(env: Env, parts: seq<string>, x: State, store: Store)
    requires Good(env, parts, x, store) && x.cnt < |parts|
    ensures Step(env, parts, x, store).Ok? ==>
      forall y :: y in Step(env, parts, x, store).value.0 ==> Good(env, parts, y, Step(env, parts, x, store).value.1)
  {
    if x.cnt % 2 == 1 && CalledName(parts, x.cnt).Some? {
      StepGoodCall(env, parts, x, store, Call(parts[x.cnt]).value.0, Call(parts[x.cnt]).value.1);
    }
  }

  lemma StepGoodCall(env: Env, parts: seq<string>, x: State, store: Store, name: string, vn: string)
    requires Good(env, parts, x, store) && x.cnt < |parts| && x.cnt % 2 == 1
    requires Call(parts[x.cnt]) == Some((name, vn)) && name != EMPTY
    ensures Step(env, parts, x, store).Ok? ==>
      forall y :: y in Step(env, parts, x, store).value.0 ==> Good(env, parts, y, Step(env, parts, x, store).value.1)
  {
    if name in x.bound {
      FanGood(env, parts, x, name, vn, FreeOcc(x.mpos, name, 0), [x.bound[name]], 0, store, []);
    } else if |Candidates(env, name)| > 0 {
      assert StoreRefines(env.tok, env.lang, store, store + Candidates(env, name));
      GoodRefines(env, parts, x, store, store + Candidates(env, name));
      FanGood(env, parts, x, name, vn, FreeOcc(x.mpos, name, 0), Range(|store|, |Candidates(env, name)|), 0,
        store + Candidates(env, name), []);
    }
  }

  lemma {:induction false} LeavesGood(env: Env, parts: seq<string>, x: State, store: Store)
    requires Good(env, parts, x, store)
    ensures Leaves(env, parts, x, store).Ok? ==> forall y :: y in Leaves(env, parts, x, store).value.0 ==>
      y.cnt == |parts| && Good(env, parts, y, Leaves(env, parts, x, store).value.1)
    decreases |parts| - x.cnt, 2
  {
    if x.cnt >= |parts| {
      LeavesDone(env, parts, x, store);
    } else if Step(env, parts, x, store).Ok? {
      LeavesGoodStep(env, parts, x, store);
    } else {
      LeavesStepErr(env, parts, x, store);
    }
  }

  lemma {:induction false} LeavesGoodStep(env: Env, parts: seq<string>, x: State, store: Store)
    requires Good(env, parts, x, store) && x.cnt < |parts| && Step(env, parts, x, store).Ok?
    ensures Leaves(env, parts, x, store).Ok? ==> forall y :: y in Leaves(env, parts, x, store).value.0 ==>
      y.cnt == |parts| && Good(env, parts, y, Leaves(env, parts, x, store).value.1)
    decreases |parts| - x.cnt, 1
  {
    var a := Step(env, parts, x, store).value;
    StepGood(env, parts, x, store);
    LeavesStep(env, parts, x, store);
    LeavesOfGood(env, parts, x.cnt + 1, a.0, a.1);
  }

  lemma {:induction false} LeavesOfGood(env: Env, parts: seq<string>, c: nat, succs: seq<State>, store: Store)
    requires 0 < c <= |parts|
    requires forall y :: y in succs ==> y.cnt == c && Slots(y, store) && Good(env, parts, y, store)
    ensures LeavesOf(env, parts, c, succs, store).Ok? ==> forall z :: z in LeavesOf(env, parts, c, succs, store).value.0 ==>
      z.cnt == |parts| && Good(env, parts, z, LeavesOf(env, parts, c, succs, store).value.1)
    decreases |parts| - c + 1, 0, |succs|
  {
    if |succs| > 0 {
      assert succs[|succs| - 1] in succs;
      if Leaves(env, parts, succs[|succs| - 1], store).Ok? {
        var a := Leaves(env, parts, succs[|succs| - 1], store).value;
        LeavesGood(env, parts, succs[|succs| - 1], store);
        assert forall y :: y in succs[..|succs| - 1] ==> y in succs;
        AllGoodRefines(env, parts, succs[..|succs| - 1], c, store, a.1);
        LeavesOfGood(env, parts, c, succs[..|succs| - 1], a.1);
        if LeavesOf(env, parts, c, succs[..|succs| - 1], a.1).Ok? {
          var b := LeavesOf(env, parts, c, succs[..|succs| - 1], a.1).value;
          forall z | z in a.0
            ensures Good(env, parts, z, b.1)
          {
            GoodRefines(env, parts, z, a.1, b.1);
          }
        }
      }
    }
  }

  /** Every completed item binds exactly the macros the template calls and
      holds the whole template rendered under its choice of variants. */
  lemma LeavesRender(env: Env, parts: seq<string>)
    ensures Leaves(env, parts, Init(), []).Ok? ==> forall y :: y in Leaves(env, parts, Init(), []).value.0 ==>
      y.bound.Keys == NamesBelow(parts, |parts|) &&
      y.r == Render(env, parts, |parts|, y.bound, Leaves(env, parts, Init(), []).value.1)
  {
    LeavesGood(env, parts, Init(), []);
  }
}
