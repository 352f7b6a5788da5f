/** Second phase of `DataEngine._expand_macros` (zamiaai/data_engine.py:195-275):
    the backtracking enumerator, as functions.

    A work item `(parts, cnt, r, mpos, macro_rs)` is a `State`; `parts` is the
    same list in every item and is passed alongside. The variant dicts that
    `macro_rs` points to live in a `Store` of slots, because the source
    writes tokenised values back into them (data_engine.py:252-254) and every
    item that shares a dict sees the write. `Leaves` enumerates the completed
    items of one work item in the order the source's LIFO work list pops
    them, threading the store through, so that such writes reach exactly the
    items processed later. */
module Expansion {
  import opened Wrappers
  import opened Text
  import opened Macros
  import opened Template
  import opened Keys

  /** What one expansion sees: the language, the tokenizer, the named macros
      of that language (`lookup_named_macro(lang, name)`, a fresh list of
      variants on every lookup) and the implicit macros of the text. */
  datatype Env = Env(lang: string, tok: Tokenizer, named: string -> seq<Variant>, implicit: Implicit)

  /** `bound` maps a macro name to the store slot of the variant `macro_rs`
      holds for it in this branch. */
  datatype State = State(cnt: nat, r: seq<string>, mpos: MPos, bound: map<string, nat>)

  type Store = seq<Variant>

  const EMPTY := "empty"

  /** The variants of an unbound name: the named macro when the lookup finds
      any, else the implicit macro, else none (data_engine.py:228-230). */
  function Candidates(env: Env, name: string): seq<Variant>
  {
    var named := env.named(name);
    if |named| > 0 then named
    else if name in env.implicit then env.implicit[name]
    else []
  }

  /** `p1.split(':')` with exactly two pieces: the macro name and the
      variable. */
  function Call(p: string): Option<(string, string)>
  {
    var i := IndexFrom(p, ':', 0);
    if i == |p| || IndexFrom(p, ':', i + 1) < |p| then None else Some((p[..i], p[i + 1..]))
  }

  /** `Call` is `p.split(':')` when that gives exactly two pieces. */
  lemma CallSplit(p: string)
    ensures Call(p) == (var sub := Split(p, ':'); if |sub| == 2 then Some((sub[0], sub[1])) else None)
  {
    IndexFromFind(p, ':', 0);
    assert p[0..] == p;
    var f := Find(p, ':');
    if f >= 0 {
      CallSplitAt(p, f);
    } else {
      assert Split(p, ':') == [p];
    }
  }

  lemma CallSplitAt(p: string, f: nat)
    requires f < |p| && Find(p, ':') == f && IndexFrom(p, ':', 0) == f
    ensures Call(p) == (var sub := Split(p, ':'); if |sub| == 2 then Some((sub[0], sub[1])) else None)
  {
    var rest := p[f + 1..];
    SplitAt(p, ':', f);
    assert Split(p, ':') == [p[..f]] + Split(rest, ':');
    IndexFromFind(p, ':', f + 1);
    var g := Find(rest, ':');
    if g >= 0 {
      SplitAt(rest, ':', g);
      assert |Split(p, ':')| >= 3;
      assert IndexFrom(p, ':', f + 1) < |p|;
    } else {
      assert Split(rest, ':') == [rest];
      assert Split(p, ':') == [p[..f], rest];
      assert IndexFrom(p, ':', f + 1) == |p|;
    }
  }

  predicate Slots(st: State, store: Store)
  {
    forall n :: n in st.bound ==> st.bound[n] < |store|
  }

  /** The span keys of occurrences below `n` of `name`. */
  function StartKeys(name: string, n: nat): set<string>
  {
    set j | 0 <= j < n :: StartKey(name, j)
  }

  lemma {:induction false} StartKeysCard(name: string, n: nat)
    ensures |StartKeys(name, n)| == n
  {
    if n > 0 {
      StartKeysCard(name, n - 1);
      var key := StartKey(name, n - 1);
      assert StartKeys(name, n) == StartKeys(name, n - 1) + {key};
      if key in StartKeys(name, n - 1) {
        var j :| 0 <= j < n - 1 && StartKey(name, j) == key;
        StartKeyInjective(name, j, name, n - 1);
      }
    }
  }

  /** A map holding the span keys of n occurrences has at least n keys. */
  lemma StartKeysBound(mpos: MPos, name: string, n: nat)
    requires forall j :: 0 <= j < n ==> StartKey(name, j) in mpos
    ensures n <= |mpos|
  {
    var keys := StartKeys(name, n);
    StartKeysCard(name, n);
    assert keys <= mpos.Keys;
    SubsetCard(keys, mpos.Keys);
  }

  lemma SubsetCard<T>(a: set<T>, b: set<T>)
    requires a <= b
    ensures |a| <= |b|
  {
    assert b == a + (b - a);
  }

  /** The `mpnn` search (data_engine.py:243-248): the first occurrence
      number at or after `n` whose span key is free. */
  function FreeOcc(mpos: MPos, name: string, n: nat): (m: nat)
    requires forall j :: 0 <= j < n ==> StartKey(name, j) in mpos
    ensures n <= m && StartKey(name, m) !in mpos
    ensures forall j :: 0 <= j < m ==> StartKey(name, j) in mpos
    decreases |mpos| - n
  {
    if StartKey(name, n) !in mpos then n
    else
      StartKeysBound(mpos, name, n + 1);
      FreeOcc(mpos, name, n + 1)
  }

  /** No binding after the `j`-th lowers to the same name: of the bindings
      sharing a key, the `j`-th is the one written last. */
  predicate LastOfLower(v: Variant, j: nat)
    requires j < |v|
  {
    NoneLowerFrom(v, Lower(v[j].name), j + 1)
  }

  /** No binding from the `i`-th on lowers to `l`. */
  predicate NoneLowerFrom(v: Variant, l: string, i: nat)
    requires i <= |v|
    decreases |v| - i
  {
    i == |v| || (Lower(v[i].name) != l && NoneLowerFrom(v, l, i + 1))
  }

  lemma {:induction false} NoneLowerFromAt(v: Variant, l: string, i: nat, j: nat)
    requires i <= j < |v| && NoneLowerFrom(v, l, i)
    ensures Lower(v[j].name) != l
    decreases j - i
  {
    if i < j {
      NoneLowerFromAt(v, l, i + 1, j);
    }
  }

  lemma {:induction false} NoneLowerFromIntro(v: Variant, l: string, i: nat)
    requires i <= |v|
    requires forall j :: i <= j < |v| ==> Lower(v[j].name) != l
    ensures NoneLowerFrom(v, l, i)
    decreases |v| - i
  {
    if i < |v| {
      NoneLowerFromIntro(v, l, i + 1);
    }
  }

  /** `for vn3 in r3: mpos1['%s_%d_%s' % (name, mpnn, vn3.lower())] = r3[vn3]`,
      from binding `i` on. */
  function Record(mpos: MPos, name: string, m: nat, v: Variant, i: nat): (res: MPos)
    requires i <= |v|
    ensures forall key :: key in res <==>
      key in mpos || exists j :: i <= j < |v| && key == VarKey(name, m, Lower(v[j].name))
    ensures forall key :: key in mpos && (forall j :: i <= j < |v| ==> key != VarKey(name, m, Lower(v[j].name))) ==>
      res[key] == mpos[key]
    decreases |v| - i
  {
    if i == |v| then mpos
    else Record(mpos[VarKey(name, m, Lower(v[i].name)) := Val(v[i].value)], name, m, v, i + 1)
  }

  /** What `Record` stores under a variable's key: the value of the last
      binding, in the variant's order, whose name lowers to it. */
  lemma {:induction false} RecordValues(mpos: MPos, name: string, m: nat, v: Variant, i: nat)
    requires i <= |v|
    ensures forall j :: i <= j < |v| && LastOfLower(v, j) ==>
      && VarKey(name, m, Lower(v[j].name)) in Record(mpos, name, m, v, i)
      && Record(mpos, name, m, v, i)[VarKey(name, m, Lower(v[j].name))] == Val(v[j].value)
    decreases |v| - i
  {
    if i < |v| {
      var mp := mpos[VarKey(name, m, Lower(v[i].name)) := Val(v[i].value)];
      RecordValues(mp, name, m, v, i + 1);
      LastWritten(mp, name, m, v, i, Record(mp, name, m, v, i + 1));
    }
  }

  /** The step of `Record`: the `i`-th binding's value survives the later
      writes when it is the last with its lowered name. */
  lemma LastWritten(mp: MPos, name: string, m: nat, v: Variant, i: nat, res: MPos)
    requires i < |v| && VarKey(name, m, Lower(v[i].name)) in mp && mp[VarKey(name, m, Lower(v[i].name))] == Val(v[i].value)
    requires mp.Keys <= res.Keys
    requires forall key :: key in mp && (forall j :: i + 1 <= j < |v| ==> key != VarKey(name, m, Lower(v[j].name))) ==>
      res[key] == mp[key]
    requires forall j :: i + 1 <= j < |v| && LastOfLower(v, j) ==>
      VarKey(name, m, Lower(v[j].name)) in res && res[VarKey(name, m, Lower(v[j].name))] == Val(v[j].value)
    ensures forall j :: i <= j < |v| && LastOfLower(v, j) ==>
      VarKey(name, m, Lower(v[j].name)) in res && res[VarKey(name, m, Lower(v[j].name))] == Val(v[j].value)
  {
    if LastOfLower(v, i) {
      forall j | i < j < |v|
        ensures VarKey(name, m, Lower(v[i].name)) != VarKey(name, m, Lower(v[j].name))
      {
        NoneLowerFromAt(v, Lower(v[i].name), i + 1, j);
        if VarKey(name, m, Lower(v[i].name)) == VarKey(name, m, Lower(v[j].name)) {
          VarKeyTail(name, m, Lower(v[i].name), Lower(v[j].name));
        }
      }
    }
  }

  /** The successor for one variant (data_engine.py:235-261): its tokens
      appended, the span and the variables recorded under occurrence `m`,
      and the name bound to the variant's slot. */
  function Successor(st: State, name: string, m: nat, id: nat, v: Variant, toks: seq<string>): State
  {
    var r1 := st.r + toks;
    var spans := st.mpos[StartKey(name, m) := Pos(|st.r|)][EndKey(name, m) := Pos(|r1|)];
    State(st.cnt + 1, r1, Record(spans, name, m, v, 0), st.bound[name := id])
  }

  /** The body of `for r3 in macro` for the variant in slot `id`
      (data_engine.py:235-261): a raw string value of `vn` is tokenised with
      the default tokenizer and written back into the slot, and the
      successor takes the value's tokens; without `vn` it is Python's
      KeyError. */
  function Take(env: Env, st: State, name: string, vn: string, m: nat, id: nat, store: Store)
    : (res: Result<(State, Store), Error>)
    requires id < |store| && Slots(st, store)
    ensures res.Ok? <==> GetVar(store[id], vn).Some?
    ensures res.Err? ==> res.error == MissingVar(name, vn)
    ensures res.Ok? ==> StoreRefines(env.tok, env.lang, store, res.value.1) && |res.value.1| == |store|
    ensures res.Ok? ==> res.value.0.cnt == st.cnt + 1 && Slots(res.value.0, res.value.1)
  {
    match GetVar(store[id], vn)
    case None => Err(MissingVar(name, vn))
    case Some(val) =>
      CacheRefines(env.tok, env.lang, store, id, vn, val);
      var toks := TokensOf(env.tok, env.lang, val);
      var v := if val.Str? then SetVar(store[id], vn, Toks(toks)) else store[id];
      Ok((Successor(st, name, m, id, v, toks), store[id := v]))
  }

  /** `for r3 in macro` over the slots `ids`, from the i-th on; `acc` holds
      the successors built so far. */
  function FanFrom(env: Env, st: State, name: string, vn: string, m: nat, ids: seq<nat>, i: nat, store: Store, acc: seq<State>)
    : (res: Result<(seq<State>, Store), Error>)
    requires i <= |ids| && forall j :: 0 <= j < |ids| ==> ids[j] < |store|
    requires Slots(st, store)
    requires forall x :: x in acc ==> x.cnt == st.cnt + 1 && Slots(x, store)
    ensures res.Ok? ==> |res.value.0| == |acc| + |ids| - i
    ensures res.Ok? ==> res.value.0[..|acc|] == acc
    ensures res.Ok? ==> StoreRefines(env.tok, env.lang, store, res.value.1) && |res.value.1| == |store|
    ensures res.Ok? ==> forall x :: x in res.value.0 ==> x.cnt == st.cnt + 1 && Slots(x, res.value.1)
    ensures res.Err? ==> res.error.MissingVar?
    decreases |ids| - i, 1
  {
    if i == |ids| then Ok((acc, store))
    else
      match Take(env, st, name, vn, m, ids[i], store)
      case Err(e) => Err(e)
      case Ok(t) =>
        SlotsGrow(acc, store, t.1);
        FanNext(env, st, name, vn, m, ids, i, store, acc, t)
  }

  /** FanFrom after slot `ids[i]` gave the successor and store `t`. */
  function FanNext(env: Env, st: State, name: string, vn: string, m: nat, ids: seq<nat>, i: nat, store: Store, acc: seq<State>,
    t: (State, Store)): (res: Result<(seq<State>, Store), Error>)
    requires i < |ids| && forall j :: 0 <= j < |ids| ==> ids[j] < |store|
    requires Slots(st, store)
    requires StoreRefines(env.tok, env.lang, store, t.1) && |t.1| == |store|
    requires t.0.cnt == st.cnt + 1 && Slots(t.0, t.1)
    requires forall x :: x in acc ==> x.cnt == st.cnt + 1 && Slots(x, t.1)
    ensures res.Ok? ==> |res.value.0| == |acc| + |ids| - i
    ensures res.Ok? ==> res.value.0[..|acc|] == acc
    ensures res.Ok? ==> StoreRefines(env.tok, env.lang, store, res.value.1) && |res.value.1| == |store|
    ensures res.Ok? ==> forall x :: x in res.value.0 ==> x.cnt == st.cnt + 1 && Slots(x, res.value.1)
    ensures res.Err? ==> res.error.MissingVar?
    decreases |ids| - i, 0
  {
    var res := FanFrom(env, st, name, vn, m, ids, i + 1, t.1, acc + [t.0]);
    assert res.Ok? ==> res.value.0[..|acc|] == acc by {
      if res.Ok? {
        assert res.value.0[..|acc|] == res.value.0[..|acc| + 1][..|acc|];
      }
    }
    StoreRefinesThen(env.tok, env.lang, store, t.1, res);
    res
  }

  /** One turn of `for r3 in macro` as Take describes it. */
  lemma FanStep(env: Env, st: State, name: string, vn: string, m: nat, ids: seq<nat>, i: nat, store: Store, acc: seq<State>)
    requires i < |ids| && forall j :: 0 <= j < |ids| ==> ids[j] < |store|
    requires Slots(st, store)
    requires forall x :: x in acc ==> x.cnt == st.cnt + 1 && Slots(x, store)
    requires Take(env, st, name, vn, m, ids[i], store).Ok?
    ensures forall j :: 0 <= j < |ids| ==> ids[j] < |Take(env, st, name, vn, m, ids[i], store).value.1|
    ensures Slots(st, Take(env, st, name, vn, m, ids[i], store).value.1)
    ensures forall x :: x in acc + [Take(env, st, name, vn, m, ids[i], store).value.0] ==>
      x.cnt == st.cnt + 1 && Slots(x, Take(env, st, name, vn, m, ids[i], store).value.1)
    ensures FanFrom(env, st, name, vn, m, ids, i, store, acc) ==
      FanFrom(env, st, name, vn, m, ids, i + 1, Take(env, st, name, vn, m, ids[i], store).value.1,
        acc + [Take(env, st, name, vn, m, ids[i], store).value.0])
  {
    SlotsGrow(acc, store, Take(env, st, name, vn, m, ids[i], store).value.1);
    SlotsGrow([st], store, Take(env, st, name, vn, m, ids[i], store).value.1);
  }

  /** Writing back the tokenisation of a slot's value only refines the store. */
  lemma CacheRefines(tok: Tokenizer, lang: string, store: Store, id: nat, vn: string, val: Value)
    requires id < |store| && GetVar(store[id], vn) == Some(val)
    ensures var v := if val.Str? then SetVar(store[id], vn, Toks(TokensOf(tok, lang, val))) else store[id];
      StoreRefines(tok, lang, store, store[id := v])
  {
    var w := store[id];
    if val.Str? {
      var v := SetVar(w, vn, Toks(TokensOf(tok, lang, val)));
      var i := VarIndex(w, vn).value;
      assert v == w[i := Binding(vn, Toks(tok.plain(val.s, lang)))];
      assert VariantRefines(tok, lang, w, v);
    }
    var t := store[id := if val.Str? then SetVar(w, vn, Toks(TokensOf(tok, lang, val))) else w];
    forall j | 0 <= j < |store|
      ensures VariantRefines(tok, lang, store[j], t[j])
    {
      if j != id {
        assert t[j] == store[j];
        VariantRefinesReflexive(tok, lang, store[j]);
      }
    }
  }

  lemma VariantRefinesReflexive(tok: Tokenizer, lang: string, v: Variant)
    ensures VariantRefines(tok, lang, v, v)
  {
  }

  lemma StoreRefinesThen(tok: Tokenizer, lang: string, s: Store, t: Store, res: Result<(seq<State>, Store), Error>)
    requires StoreRefines(tok, lang, s, t)
    requires res.Ok? ==> StoreRefines(tok, lang, t, res.value.1)
    ensures res.Ok? ==> StoreRefines(tok, lang, s, res.value.1)
  {
    if res.Ok? {
      StoreRefinesTransitive(tok, lang, s, t, res.value.1);
    }
  }

  /** The slots `a`, ..., `a + n - 1`. */
  function Range(a: nat, n: nat): (ids: seq<nat>)
    ensures |ids| == n && forall j :: 0 <= j < n ==> ids[j] == a + j
  {
    seq(n, j requires 0 <= j => a + j)
  }

  /** One pop of the work list (data_engine.py:197-273) for an unfinished
      item: its successors and the store afterwards. */
  function Step(env: Env, parts: seq<string>, st: State, store: Store): (res: Result<(seq<State>, Store), Error>)
    requires st.cnt < |parts| && Slots(st, store)
    ensures res.Ok? ==> |res.value.0| >= 1
    ensures res.Ok? ==> StoreRefines(env.tok, env.lang, store, res.value.1)
    ensures res.Ok? ==> forall x :: x in res.value.0 ==> x.cnt == st.cnt + 1 && Slots(x, res.value.1)
  {
    var p1 := parts[st.cnt];
    if st.cnt % 2 == 1 then
      match Call(p1)
      case None => Err(BadCall(p1))
      case Some((name, vn)) =>
        if name == EMPTY then
          assert StoreRefines(env.tok, env.lang, store, store);
          Ok(([State(st.cnt + 1, st.r, st.mpos, st.bound)], store))
        else
          var m := FreeOcc(st.mpos, name, 0);
          if name in st.bound then
            FanFrom(env, st, name, vn, m, [st.bound[name]], 0, store, [])
          else
            var vs := Candidates(env, name);
            if |vs| == 0 then Err(UnknownMacro(name, env.lang))
            else
              var res := FanFrom(env, st, name, vn, m, Range(|store|, |vs|), 0, store + vs, []);
              assert StoreRefines(env.tok, env.lang, store, store + vs);
              StoreRefinesThen(env.tok, env.lang, store, store + vs, res);
              res
    else
      assert StoreRefines(env.tok, env.lang, store, store);
      Ok(([State(st.cnt + 1, st.r + env.tok.noPunct(p1, env.lang), st.mpos, st.bound)], store))
  }

  /** The completed items a work item leads to, in the order the source
      appends them to `done`, and the store afterwards. */
  function Leaves(env: Env, parts: seq<string>, st: State, store: Store): (res: Result<(seq<State>, Store), Error>)
    requires Slots(st, store)
    ensures res.Ok? ==> |res.value.0| >= 1 && StoreRefines(env.tok, env.lang, store, res.value.1)
    decreases |parts| - st.cnt, 1, 0
  {
    if st.cnt >= |parts| then
      assert StoreRefines(env.tok, env.lang, store, store);
      Ok(([st], store))
    else
      match Step(env, parts, st, store)
      case Err(e) => Err(e)
      case Ok(a) => LeavesOf(env, parts, st.cnt + 1, a.0, a.1)
  }

  /** The successors of one pop, the last pushed first. */
  function LeavesOf(env: Env, parts: seq<string>, c: nat, succs: seq<State>, store: Store): (res: Result<(seq<State>, Store), Error>)
    requires 0 < c <= |parts|
    requires forall x :: x in succs ==> x.cnt == c && Slots(x, store)
    ensures res.Ok? ==> |res.value.0| >= |succs| && StoreRefines(env.tok, env.lang, store, res.value.1)
    decreases |parts| - c + 1, 0, |succs|
  {
    if |succs| == 0 then
      assert StoreRefines(env.tok, env.lang, store, store);
      Ok(([], store))
    else
      var last := succs[|succs| - 1];
      var a :- Leaves(env, parts, last, store);
      SlotsGrow(succs[..|succs| - 1], store, a.1);
      var b :- LeavesOf(env, parts, c, succs[..|succs| - 1], a.1);
      StoreRefinesTransitive(env.tok, env.lang, store, a.1, b.1);
      Ok((a.0 + b.0, b.1))
  }

  /** A finished item is its own only leaf. */
  lemma LeavesDone(env: Env, parts: seq<string>, st: State, store: Store)
    requires Slots(st, store) && st.cnt >= |parts|
    ensures Leaves(env, parts, st, store) == Ok(([st], store))
  {
  }

  /** An unfinished item that steps leads to the leaves of its successors. */
  lemma LeavesStep(env: Env, parts: seq<string>, st: State, store: Store)
    requires Slots(st, store) && st.cnt < |parts| && Step(env, parts, st, store).Ok?
    ensures Leaves(env, parts, st, store) ==
      LeavesOf(env, parts, st.cnt + 1, Step(env, parts, st, store).value.0, Step(env, parts, st, store).value.1)
  {
    match Step(env, parts, st, store)
    case Ok(a) =>
  }

  /** An unfinished item that fails to step fails. */
  lemma LeavesStepErr(env: Env, parts: seq<string>, st: State, store: Store)
    requires Slots(st, store) && st.cnt < |parts| && Step(env, parts, st, store).Err?
    ensures Leaves(env, parts, st, store).Err?
  {
  }

  lemma SlotsGrow(xs: seq<State>, store: Store, store2: Store)
    requires forall x :: x in xs ==> Slots(x, store)
    requires |store| <= |store2|
    ensures forall x :: x in xs ==> Slots(x, store2)
  {
  }

  /** A whole work list, popped from the end. */
  function RunAll(env: Env, parts: seq<string>, todo: seq<State>, store: Store): (res: Result<(seq<State>, Store), Error>)
    requires forall x :: x in todo ==> Slots(x, store)
    ensures res.Ok? ==> |res.value.0| >= |todo| && StoreRefines(env.tok, env.lang, store, res.value.1)
    decreases |todo|
  {
    if |todo| == 0 then
      assert StoreRefines(env.tok, env.lang, store, store);
      Ok(([], store))
    else
      var a :- Leaves(env, parts, todo[|todo| - 1], store);
      SlotsGrow(todo[..|todo| - 1], store, a.1);
      var b :- RunAll(env, parts, todo[..|todo| - 1], a.1);
      StoreRefinesTransitive(env.tok, env.lang, store, a.1, b.1);
      Ok((a.0 + b.0, b.1))
  }

  function Init(): State
  {
    State(0, [], map[], map[])
  }

  /** The `(r, mpos)` pairs of completed items. */
  function Proj(xs: seq<State>): (ps: seq<(seq<string>, MPos)>)
    ensures |ps| == |xs| && forall i :: 0 <= i < |xs| ==> ps[i] == (xs[i].r, xs[i].mpos)
  {
    seq(|xs|, i requires 0 <= i < |xs| => (xs[i].r, xs[i].mpos))
  }

  /** `_expand_macros` on the cut-up text. */
  function Expand(env: Env, parts: seq<string>): Result<seq<(seq<string>, MPos)>, Error>
  {
    var a :- Leaves(env, parts, Init(), []);
    Ok(Proj(a.0))
  }

  /** `_expand_macros(lang, txt)`: scan, cut, enumerate. */
  function ExpandText(tok: Tokenizer, lang: string, named: string -> seq<Variant>, txt: string): Result<seq<(seq<string>, MPos)>, Error>
  {
    var s :- Scan(tok, lang, txt);
    Expand(Env(lang, tok, named, s.1), Parts(s.0))
  }
}
