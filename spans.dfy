/** The position map `mpos` of every completed item
    (zamiaai/data_engine.py:243-259). Occurrences of a macro are numbered
    0, 1, ... in template order within a branch; occurrence k of `name` has
    the keys `name_k_start` and `name_k_end`, holding the number of tokens
    before the call and after it, and one key `name_k_<var.lower()>` per
    variable of the chosen variant.

    All keys share one map, so a variable called `start` or `end`, or one
    with an `_` in its lower-cased name, could overwrite a span key; the
    properties here are stated for variants without such names (`PlainEnv`),
    which the implicit macros' single variable `W` satisfies. */
module Spans {
  import opened Wrappers
  import opened Text
  import opened Macros
  import opened Keys
  import opened Template
  import opened Expansion
  import opened Branches

  /** How many calls of `name` precede part `n`. */
  function Occ(parts: seq<string>, n: nat, name: string): nat
    requires n <= |parts|
  {
    if n == 0 then 0
    else if CalledName(parts, n - 1) == Some(name) then Occ(parts, n - 1, name) + 1
    else Occ(parts, n - 1, name)
  }

  lemma {:induction false} OccBelow(parts: seq<string>, c: nat, n: nat, name: string)
    requires c < n <= |parts| && CalledName(parts, c) == Some(name)
    ensures Occ(parts, c, name) < Occ(parts, n, name)
    decreases n
  {
    if c < n - 1 {
      OccBelow(parts, c, n - 1, name);
    }
  }

  lemma {:induction false} NamesBelowMono(parts: seq<string>, c: nat, n: nat)
    requires c <= n <= |parts|
    ensures NamesBelow(parts, c) <= NamesBelow(parts, n)
    decreases n
  {
    if c < n {
      NamesBelowMono(parts, c, n - 1);
    }
  }

  predicate PlainVariant(v: Variant)
  {
    forall j :: 0 <= j < |v| ==> PlainVar(Lower(v[j].name))
  }

  predicate PlainStore(store: Store)
  {
    forall id :: 0 <= id < |store| ==> PlainVariant(store[id])
  }

  /** Every candidate variant has plain variable names. */
  ghost predicate PlainEnv(env: Env)
  {
    forall name, i :: 0 <= i < |Candidates(env, name)| ==> PlainVariant(Candidates(env, name)[i])
  }

  /** The implicit macros' variants bind only `W`. */
  lemma ImplicitPlain(tok: Tokenizer, lang: string, bodies: seq<string>, name: string)
    requires name in ImplicitOf(tok, lang, bodies)
    ensures forall i :: 0 <= i < |ImplicitOf(tok, lang, bodies)[name]| ==> PlainVariant(ImplicitOf(tok, lang, bodies)[name][i])
  {
    ImplicitOfKeys(tok, lang, bodies, name);
    var g :| 0 <= g < |bodies| && name == ImplicitName(g);
    ImplicitOfAt(tok, lang, bodies, g);
  }

  /** The span keys present are exactly those of the occurrences so far. */
  ghost predicate KeysAt(parts: seq<string>, x: State)
    requires x.cnt <= |parts|
  {
    (forall n: string, k: nat :: StartKey(n, k) in x.mpos <==> k < Occ(parts, x.cnt, n)) &&
    (forall n: string, k: nat :: EndKey(n, k) in x.mpos <==> k < Occ(parts, x.cnt, n))
  }

  /** The entries of the call at part `c`: its span in the rendered tokens
      and a key for every variable of its variant. */
  predicate SpanOf(env: Env, parts: seq<string>, c: nat, mpos: MPos, bound: map<string, nat>, store: Store)
    requires c < |parts| && CalledName(parts, c).Some?
  {
    var n := CalledName(parts, c).value;
    var k := Occ(parts, c, n);
    StartKey(n, k) in mpos && mpos[StartKey(n, k)] == Pos(|Render(env, parts, c, bound, store)|) &&
    EndKey(n, k) in mpos && mpos[EndKey(n, k)] == Pos(|Render(env, parts, c + 1, bound, store)|) &&
    n in bound && bound[n] < |store| && VarsAt(env, n, k, store[bound[n]], mpos)
  }

  /** The variables of occurrence `k` of `n`, whose slot now holds `vs`:
      every binding has its key, and under each key the value of the
      binding written last, which the slot's value now refines. */
  predicate VarsAt(env: Env, n: string, k: nat, vs: Variant, mpos: MPos)
  {
    VarsFrom(env, n, k, vs, mpos, 0)
  }

  /** `VarsAt` for the bindings from the `i`-th on. */
  predicate VarsFrom(env: Env, n: string, k: nat, vs: Variant, mpos: MPos, i: nat)
    requires i <= |vs|
    decreases |vs| - i
  {
    i == |vs| || (VarEntry(env, n, k, vs, mpos, i) && VarsFrom(env, n, k, vs, mpos, i + 1))
  }

  /** The entry of the `j`-th binding of `vs`. */
  predicate VarEntry(env: Env, n: string, k: nat, vs: Variant, mpos: MPos, j: nat)
    requires j < |vs|
  {
    && VarKey(n, k, Lower(vs[j].name)) in mpos
    && (LastOfLower(vs, j) ==>
          && mpos[VarKey(n, k, Lower(vs[j].name))].Val?
          && ValueRefines(env.tok, env.lang, mpos[VarKey(n, k, Lower(vs[j].name))].value, vs[j].value))
  }

  lemma {:induction false} VarsFromAt(env: Env, n: string, k: nat, vs: Variant, mpos: MPos, i: nat, j: nat)
    requires i <= j < |vs| && VarsFrom(env, n, k, vs, mpos, i)
    ensures VarEntry(env, n, k, vs, mpos, j)
    decreases j - i
  {
    if i < j {
      VarsFromAt(env, n, k, vs, mpos, i + 1, j);
    }
  }

  lemma {:induction false} VarsFromIntro(env: Env, n: string, k: nat, vs: Variant, mpos: MPos, i: nat)
    requires i <= |vs|
    requires forall j :: i <= j < |vs| ==> VarEntry(env, n, k, vs, mpos, j)
    ensures VarsFrom(env, n, k, vs, mpos, i)
    decreases |vs| - i
  {
    if i < |vs| {
      VarsFromIntro(env, n, k, vs, mpos, i + 1);
    }
  }

  /** Every call rendered so far has its entries. */
  predicate SpansAll(env: Env, parts: seq<string>, x: State, store: Store)
    requires x.cnt <= |parts|
  {
    forall c :: 0 <= c < x.cnt && CalledName(parts, c).Some? ==> SpanOf(env, parts, c, x.mpos, x.bound, store)
  }

  ghost predicate SpanGood(env: Env, parts: seq<string>, x: State, store: Store)
  {
    Good(env, parts, x, store) && PlainStore(store) && KeysAt(parts, x) && SpansAll(env, parts, x, store)
  }

  /** The `mpnn` search finds the number of earlier calls. */
  lemma OccFree(parts: seq<string>, x: State, name: string)
    requires x.cnt <= |parts| && KeysAt(parts, x)
    ensures FreeOcc(x.mpos, name, 0) == Occ(parts, x.cnt, name)
  {
    assert StartKey(name, FreeOcc(x.mpos, name, 0)) !in x.mpos;
    assert StartKey(name, Occ(parts, x.cnt, name)) !in x.mpos;
  }

  lemma NoVarIsSpan(name: string, m: nat, v: Variant, n: string, k: nat)
    requires PlainVariant(v)
    ensures forall j :: 0 <= j < |v| ==> VarKey(name, m, Lower(v[j].name)) != StartKey(n, k)
    ensures forall j :: 0 <= j < |v| ==> VarKey(name, m, Lower(v[j].name)) != EndKey(n, k)
  {
    forall j | 0 <= j < |v|
      ensures VarKey(name, m, Lower(v[j].name)) != StartKey(n, k) && VarKey(name, m, Lower(v[j].name)) != EndKey(n, k)
    {
      VarNotStart(name, m, Lower(v[j].name), n, k);
      VarNotEnd(name, m, Lower(v[j].name), n, k);
    }
  }

  /** A successor's span entries: the new occurrence's, and the old ones
      unchanged. */
  lemma SuccessorKeys(x: State, name: string, m: nat, id: nat, v: Variant, toks: seq<string>, n: string, k: nat)
    requires PlainVariant(v)
    ensures StartKey(n, k) in Successor(x, name, m, id, v, toks).mpos <==> StartKey(n, k) in x.mpos || (n == name && k == m)
    ensures EndKey(n, k) in Successor(x, name, m, id, v, toks).mpos <==> EndKey(n, k) in x.mpos || (n == name && k == m)
    ensures StartKey(n, k) in x.mpos && (n != name || k != m) ==>
      Successor(x, name, m, id, v, toks).mpos[StartKey(n, k)] == x.mpos[StartKey(n, k)]
    ensures EndKey(n, k) in x.mpos && (n != name || k != m) ==>
      Successor(x, name, m, id, v, toks).mpos[EndKey(n, k)] == x.mpos[EndKey(n, k)]
  {
    NoVarIsSpan(name, m, v, n, k);
    if StartKey(n, k) == StartKey(name, m) {
      StartKeyInjective(n, k, name, m);
    }
    if EndKey(n, k) == EndKey(name, m) {
      EndKeyInjective(n, k, name, m);
    }
    StartNotEnd(n, k, name, m);
    StartNotEnd(name, m, n, k);
  }

  lemma NewSpanKeys(x: State, name: string, m: nat, id: nat, v: Variant, toks: seq<string>)
    requires PlainVariant(v)
    ensures Successor(x, name, m, id, v, toks).mpos[StartKey(name, m)] == Pos(|x.r|)
    ensures Successor(x, name, m, id, v, toks).mpos[EndKey(name, m)] == Pos(|x.r| + |toks|)
    ensures forall j :: 0 <= j < |v| ==> VarKey(name, m, Lower(v[j].name)) in Successor(x, name, m, id, v, toks).mpos
    ensures forall j :: 0 <= j < |v| && LastOfLower(v, j) ==>
      Successor(x, name, m, id, v, toks).mpos[VarKey(name, m, Lower(v[j].name))] == Val(v[j].value)
  {
    NoVarIsSpan(name, m, v, name, m);
    StartNotEnd(name, m, name, m);
    var r1 := x.r + toks;
    RecordValues(x.mpos[StartKey(name, m) := Pos(|x.r|)][EndKey(name, m) := Pos(|r1|)], name, m, v, 0);
  }

  /** The variables of the occurrence just recorded hold their own values. */
  lemma NewVars(env: Env, x: State, name: string, m: nat, id: nat, v: Variant, toks: seq<string>)
    requires PlainVariant(v)
    ensures VarsAt(env, name, m, v, Successor(x, name, m, id, v, toks).mpos)
  {
    NewSpanKeys(x, name, m, id, v, toks);
    VarsFromIntro(env, name, m, v, Successor(x, name, m, id, v, toks).mpos, 0);
  }

  /** A successor keeps the variable entries of every other occurrence. */
  lemma SuccessorVarKeeps(x: State, name: string, m: nat, id: nat, v: Variant, toks: seq<string>, n: string, k: nat, L: string)
    requires PlainVariant(v) && PlainVar(L) && (n != name || k != m) && VarKey(n, k, L) in x.mpos
    ensures VarKey(n, k, L) in Successor(x, name, m, id, v, toks).mpos
    ensures Successor(x, name, m, id, v, toks).mpos[VarKey(n, k, L)] == x.mpos[VarKey(n, k, L)]
  {
    VarNotStart(n, k, L, name, m);
    VarNotEnd(n, k, L, name, m);
    forall j | 0 <= j < |v|
      ensures VarKey(n, k, L) != VarKey(name, m, Lower(v[j].name))
    {
      if VarKey(n, k, L) == VarKey(name, m, Lower(v[j].name)) {
        VarKeyInjective(n, k, L, name, m, Lower(v[j].name));
      }
    }
  }

  /** Every key of an item stays in its successors. */
  lemma SuccessorKeeps(x: State, name: string, m: nat, id: nat, v: Variant, toks: seq<string>)
    ensures x.mpos.Keys <= Successor(x, name, m, id, v, toks).mpos.Keys
  {
  }

  lemma KeysAfter(parts: seq<string>, x: State, name: string, id: nat, v: Variant, toks: seq<string>)
    requires x.cnt < |parts| && CalledName(parts, x.cnt) == Some(name) && KeysAt(parts, x) && PlainVariant(v)
    ensures KeysAt(parts, Successor(x, name, Occ(parts, x.cnt, name), id, v, toks))
  {
    KeysAfterOf(parts, x, name, Occ(parts, x.cnt, name), Successor(x, name, Occ(parts, x.cnt, name), id, v, toks), id, v, toks);
  }

  lemma KeysAfterOf(parts: seq<string>, x: State, name: string, m: nat, y: State, id: nat, v: Variant, toks: seq<string>)
    requires x.cnt < |parts| && CalledName(parts, x.cnt) == Some(name) && KeysAt(parts, x) && PlainVariant(v)
    requires m == Occ(parts, x.cnt, name) && y == Successor(x, name, m, id, v, toks)
    ensures KeysAt(parts, y)
  {
    assert StartKey(name, m) !in x.mpos;
    forall n: string, k: nat
      ensures StartKey(n, k) in y.mpos <==> k < Occ(parts, x.cnt + 1, n)
      ensures EndKey(n, k) in y.mpos <==> k < Occ(parts, x.cnt + 1, n)
    {
      KeyAfter(parts, x, name, m, y, id, v, toks, n, k);
    }
  }

  lemma KeyAfter(parts: seq<string>, x: State, name: string, m: nat, y: State, id: nat, v: Variant, toks: seq<string>,
    n: string, k: nat)
    requires x.cnt < |parts| && CalledName(parts, x.cnt) == Some(name) && PlainVariant(v)
    requires m == Occ(parts, x.cnt, name) && y == Successor(x, name, m, id, v, toks)
    requires StartKey(n, k) in x.mpos <==> k < Occ(parts, x.cnt, n)
    requires EndKey(n, k) in x.mpos <==> k < Occ(parts, x.cnt, n)
    requires StartKey(name, m) !in x.mpos
    ensures StartKey(n, k) in y.mpos <==> k < Occ(parts, x.cnt + 1, n)
    ensures EndKey(n, k) in y.mpos <==> k < Occ(parts, x.cnt + 1, n)
  {
    SuccessorKeys(x, name, m, id, v, toks, n, k);
    OccNext(parts, x.cnt, name, n);
  }

  /** A call of `name` raises the count of `name` and no other. */
  lemma OccNext(parts: seq<string>, c: nat, name: string, n: string)
    requires c < |parts| && CalledName(parts, c) == Some(name)
    ensures Occ(parts, c + 1, n) == if n == name then Occ(parts, c, n) + 1 else Occ(parts, c, n)
  {
  }

  /** A literal part or an `empty` call keeps the keys. */
  lemma KeysSame(parts: seq<string>, x: State, y: State)
    requires x.cnt < |parts| && CalledName(parts, x.cnt).None? && KeysAt(parts, x)
    requires y.cnt == x.cnt + 1 && y.mpos == x.mpos
    ensures KeysAt(parts, y)
  {
    forall n
      ensures Occ(parts, y.cnt, n) == Occ(parts, x.cnt, n)
    {
    }
  }

  /** The span entries of the call at part `c` agree in two maps. */
  ghost predicate SameSpan(parts: seq<string>, c: nat, m1: MPos, m2: MPos)
    requires c < |parts| && CalledName(parts, c).Some?
  {
    var n := CalledName(parts, c).value;
    var k := Occ(parts, c, n);
    (StartKey(n, k) in m1 ==> StartKey(n, k) in m2 && m2[StartKey(n, k)] == m1[StartKey(n, k)]) &&
    (EndKey(n, k) in m1 ==> EndKey(n, k) in m2 && m2[EndKey(n, k)] == m1[EndKey(n, k)]) &&
    forall L :: PlainVar(L) && VarKey(n, k, L) in m1 ==> VarKey(n, k, L) in m2 && m2[VarKey(n, k, L)] == m1[VarKey(n, k, L)]
  }

  /** A call's entries stay right when the map keeps them, the branch keeps
      the slots of the names called so far, and the store is refined. */
  lemma SpanOfMove(env: Env, parts: seq<string>, c: nat, m1: MPos, b1: map<string, nat>, s1: Store,
    m2: MPos, b2: map<string, nat>, s2: Store)
    requires c < |parts| && CalledName(parts, c).Some? && SpanOf(env, parts, c, m1, b1, s1)
    requires forall k :: k in NamesBelow(parts, c + 1) ==> k in b1 && k in b2 && b2[k] == b1[k] && b1[k] < |s1|
    requires StoreRefines(env.tok, env.lang, s1, s2) && m1.Keys <= m2.Keys && SameSpan(parts, c, m1, m2)
    requires PlainVariant(s1[b1[CalledName(parts, c).value]])
    ensures SpanOf(env, parts, c, m2, b2, s2)
  {
    RenderStable(env, parts, c, b1, s1, b2, s2);
    RenderStable(env, parts, c + 1, b1, s1, b2, s2);
    var n := CalledName(parts, c).value;
    VarsMove(env, n, Occ(parts, c, n), s1[b1[n]], s2[b1[n]], m1, m2);
  }

  /** The variable entries of a variant hold for any variant that refines
      it, in a map that keeps them. */
  lemma VarsMove(env: Env, n: string, k: nat, v1: Variant, v2: Variant, m1: MPos, m2: MPos)
    requires VariantRefines(env.tok, env.lang, v1, v2) && PlainVariant(v1) && VarsAt(env, n, k, v1, m1)
    requires forall L :: PlainVar(L) && VarKey(n, k, L) in m1 ==> VarKey(n, k, L) in m2 && m2[VarKey(n, k, L)] == m1[VarKey(n, k, L)]
    ensures VarsAt(env, n, k, v2, m2)
  {
    forall j | 0 <= j < |v2|
      ensures VarEntry(env, n, k, v2, m2, j)
    {
      VarsFromAt(env, n, k, v1, m1, 0, j);
      assert v2[j].name == v1[j].name && PlainVar(Lower(v1[j].name));
      if LastOfLower(v2, j) {
        forall j' | j < j' < |v1|
          ensures Lower(v1[j'].name) != Lower(v1[j].name)
        {
          NoneLowerFromAt(v2, Lower(v2[j].name), j + 1, j');
          assert v2[j'].name == v1[j'].name;
        }
        NoneLowerFromIntro(v1, Lower(v1[j].name), j + 1);
      }
    }
    VarsFromIntro(env, n, k, v2, m2, 0);
  }

  /** The successor keeps the span entries of an earlier call. */
  lemma OldSameSpan(parts: seq<string>, x: State, name: string, id: nat, v: Variant, toks: seq<string>, c: nat)
    requires x.cnt < |parts| && CalledName(parts, x.cnt) == Some(name) && PlainVariant(v)
    requires c < x.cnt && CalledName(parts, c).Some?
    ensures SameSpan(parts, c, x.mpos, Successor(x, name, Occ(parts, x.cnt, name), id, v, toks).mpos)
    ensures x.mpos.Keys <= Successor(x, name, Occ(parts, x.cnt, name), id, v, toks).mpos.Keys
  {
    var n := CalledName(parts, c).value;
    OccBelow(parts, c, x.cnt, n);
    SuccessorKeys(x, name, Occ(parts, x.cnt, name), id, v, toks, n, Occ(parts, c, n));
    forall L | PlainVar(L) && VarKey(n, Occ(parts, c, n), L) in x.mpos
      ensures VarKey(n, Occ(parts, c, n), L) in Successor(x, name, Occ(parts, x.cnt, name), id, v, toks).mpos
      ensures Successor(x, name, Occ(parts, x.cnt, name), id, v, toks).mpos[VarKey(n, Occ(parts, c, n), L)] ==
        x.mpos[VarKey(n, Occ(parts, c, n), L)]
    {
      SuccessorVarKeeps(x, name, Occ(parts, x.cnt, name), id, v, toks, n, Occ(parts, c, n), L);
    }
  }

  /** Binding a new name keeps the slots of the names called before `n`. */
  lemma BoundBelow(parts: seq<string>, x: State, store: Store, name: string, id: nat, n: nat)
    requires n <= x.cnt <= |parts| && x.bound.Keys == NamesBelow(parts, x.cnt) && Slots(x, store)
    requires name in x.bound ==> id == x.bound[name]
    ensures forall k :: k in NamesBelow(parts, n) ==>
      k in x.bound && k in x.bound[name := id] && x.bound[name := id][k] == x.bound[k] && x.bound[k] < |store|
  {
    NamesBelowMono(parts, n, x.cnt);
  }

  /** The span of an earlier call is not touched by a successor `y` that
      keeps its entries. */
  lemma OldSpan(env: Env, parts: seq<string>, x: State, store: Store, name: string, id: nat, y: State, store2: Store, c: nat)
    requires x.cnt <= |parts| && c < x.cnt && CalledName(parts, c).Some? && SpanOf(env, parts, c, x.mpos, x.bound, store)
    requires x.bound.Keys == NamesBelow(parts, x.cnt) && Slots(x, store)
    requires (name in x.bound ==> id == x.bound[name]) && y.bound == x.bound[name := id]
    requires SameSpan(parts, c, x.mpos, y.mpos) && x.mpos.Keys <= y.mpos.Keys
    requires PlainStore(store) && StoreRefines(env.tok, env.lang, store, store2)
    ensures SpanOf(env, parts, c, y.mpos, y.bound, store2)
  {
    BoundBelow(parts, x, store, name, id, c + 1);
    assert PlainVariant(store[x.bound[CalledName(parts, c).value]]);
    SpanOfMove(env, parts, c, x.mpos, x.bound, store, y.mpos, x.bound[name := id], store2);
  }

  /** The span of the call just taken. */
  lemma NewSpan(env: Env, parts: seq<string>, x: State, store: Store, name: string, id: nat, v: Variant, toks: seq<string>,
    store2: Store)
    requires x.cnt < |parts| && CalledName(parts, x.cnt) == Some(name)
    requires x.bound.Keys == NamesBelow(parts, x.cnt) && Slots(x, store)
    requires |x.r| == |Render(env, parts, x.cnt, x.bound, store)|
    requires |x.r| + |toks| == |Render(env, parts, x.cnt + 1, x.bound[name := id], store2)|
    requires (name in x.bound ==> id == x.bound[name]) && id < |store2| && store2[id] == v
    requires PlainVariant(v) && StoreRefines(env.tok, env.lang, store, store2)
    ensures SpanOf(env, parts, x.cnt, Successor(x, name, Occ(parts, x.cnt, name), id, v, toks).mpos, x.bound[name := id], store2)
  {
    NewSpanKeys(x, name, Occ(parts, x.cnt, name), id, v, toks);
    NewVars(env, x, name, Occ(parts, x.cnt, name), id, v, toks);
    BoundBelow(parts, x, store, name, id, x.cnt);
    RenderStable(env, parts, x.cnt, x.bound, store, x.bound[name := id], store2);
    assert StartKey(name, Occ(parts, x.cnt, name)) in Successor(x, name, Occ(parts, x.cnt, name), id, v, toks).mpos;
    assert Successor(x, name, Occ(parts, x.cnt, name), id, v, toks).mpos[StartKey(name, Occ(parts, x.cnt, name))] == Pos(|Render(env, parts, x.cnt, x.bound[name := id], store2)|);
    assert EndKey(name, Occ(parts, x.cnt, name)) in Successor(x, name, Occ(parts, x.cnt, name), id, v, toks).mpos;
    assert Successor(x, name, Occ(parts, x.cnt, name), id, v, toks).mpos[EndKey(name, Occ(parts, x.cnt, name))] == Pos(|Render(env, parts, x.cnt + 1, x.bound[name := id], store2)|);
    assert name in x.bound[name := id] && x.bound[name := id][name] < |store2|;
  }

  /** The variant a slot holds after `r3[vn] = s3` caches a tokenisation. */
  function Cached(env: Env, w: Variant, vn: string): (c: Variant)
    requires GetVar(w, vn).Some?
    ensures |c| == |w| && forall j :: 0 <= j < |w| ==> c[j].name == w[j].name
  {
    if GetVar(w, vn).value.Str? then SetVar(w, vn, Toks(TokensOf(env.tok, env.lang, GetVar(w, vn).value))) else w
  }

  lemma TakeShape(env: Env, x: State, name: string, vn: string, m: nat, id: nat, store: Store)
    requires id < |store| && Slots(x, store)
    requires Take(env, x, name, vn, m, id, store).Ok?
    ensures Take(env, x, name, vn, m, id, store).value.0 ==
      Successor(x, name, m, id, Cached(env, store[id], vn), TokensOf(env.tok, env.lang, GetVar(store[id], vn).value))
    ensures Take(env, x, name, vn, m, id, store).value.1 == store[id := Cached(env, store[id], vn)]
  {
  }

  /** The successor keeps the entries of the earlier calls and adds those of
      the call just taken. */
  lemma SpansAfter(env: Env, parts: seq<string>, x: State, store: Store, name: string, id: nat, v: Variant, toks: seq<string>,
    store2: Store)
    requires x.cnt < |parts| && CalledName(parts, x.cnt) == Some(name) && SpansAll(env, parts, x, store)
    requires x.bound.Keys == NamesBelow(parts, x.cnt) && Slots(x, store)
    requires |x.r| == |Render(env, parts, x.cnt, x.bound, store)|
    requires |x.r| + |toks| == |Render(env, parts, x.cnt + 1, x.bound[name := id], store2)|
    requires (name in x.bound ==> id == x.bound[name]) && id < |store2| && store2[id] == v
    requires PlainVariant(v) && PlainStore(store) && StoreRefines(env.tok, env.lang, store, store2)
    ensures SpansAll(env, parts, Successor(x, name, Occ(parts, x.cnt, name), id, v, toks), store2)
  {
    NewSpan(env, parts, x, store, name, id, v, toks, store2);
    OldSpans(env, parts, x, store, name, id, v, toks, store2);
    SpansAllOf(env, parts, Successor(x, name, Occ(parts, x.cnt, name), id, v, toks), store2);
  }

  lemma SpansAllOf(env: Env, parts: seq<string>, y: State, store: Store)
    requires 0 < y.cnt <= |parts|
    requires forall c :: 0 <= c < y.cnt - 1 && CalledName(parts, c).Some? ==> SpanOf(env, parts, c, y.mpos, y.bound, store)
    requires CalledName(parts, y.cnt - 1).Some? ==> SpanOf(env, parts, y.cnt - 1, y.mpos, y.bound, store)
    ensures SpansAll(env, parts, y, store)
  {
  }

  lemma OldSpans(env: Env, parts: seq<string>, x: State, store: Store, name: string, id: nat, v: Variant, toks: seq<string>,
    store2: Store)
    requires x.cnt < |parts| && CalledName(parts, x.cnt) == Some(name) && SpansAll(env, parts, x, store)
    requires x.bound.Keys == NamesBelow(parts, x.cnt) && Slots(x, store)
    requires (name in x.bound ==> id == x.bound[name])
    requires PlainVariant(v) && PlainStore(store) && StoreRefines(env.tok, env.lang, store, store2)
    ensures forall c :: 0 <= c < x.cnt && CalledName(parts, c).Some? ==>
      SpanOf(env, parts, c, Successor(x, name, Occ(parts, x.cnt, name), id, v, toks).mpos, x.bound[name := id], store2)
  {
    forall c | 0 <= c < x.cnt && CalledName(parts, c).Some?
      ensures SpanOf(env, parts, c, Successor(x, name, Occ(parts, x.cnt, name), id, v, toks).mpos, x.bound[name := id], store2)
    {
      OldSameSpan(parts, x, name, id, v, toks, c);
      OldSpan(env, parts, x, store, name, id, Successor(x, name, Occ(parts, x.cnt, name), id, v, toks), store2, c);
    }
  }

  lemma SpanAfter(env: Env, parts: seq<string>, x: State, store: Store, name: string, id: nat, v: Variant, toks: seq<string>,
    store2: Store)
    requires SpanGood(env, parts, x, store) && x.cnt < |parts| && CalledName(parts, x.cnt) == Some(name)
    requires (name in x.bound ==> id == x.bound[name]) && id < |store2| && store2[id] == v
    requires PlainVariant(v) && PlainStore(store2) && StoreRefines(env.tok, env.lang, store, store2)
    requires Good(env, parts, Successor(x, name, Occ(parts, x.cnt, name), id, v, toks), store2)
    ensures SpanGood(env, parts, Successor(x, name, Occ(parts, x.cnt, name), id, v, toks), store2)
  {
    KeysAfter(parts, x, name, id, v, toks);
    SpansAfter(env, parts, x, store, name, id, v, toks, store2);
  }

  /** The successor for one variant keeps the position map right. */
  lemma TakeSpans(env: Env, parts: seq<string>, x: State, name: string, vn: string, id: nat, store: Store)
    requires SpanGood(env, parts, x, store) && x.cnt < |parts| && x.cnt % 2 == 1
    requires Call(parts[x.cnt]) == Some((name, vn)) && name != EMPTY
    requires id < |store| && (name in x.bound ==> id == x.bound[name])
    requires Take(env, x, name, vn, FreeOcc(x.mpos, name, 0), id, store).Ok?
    ensures SpanGood(env, parts, Take(env, x, name, vn, FreeOcc(x.mpos, name, 0), id, store).value.0,
      Take(env, x, name, vn, FreeOcc(x.mpos, name, 0), id, store).value.1)
  {
    OccFree(parts, x, name);
    TakeGood(env, parts, x, name, vn, FreeOcc(x.mpos, name, 0), id, store);
    TakeShape(env, x, name, vn, FreeOcc(x.mpos, name, 0), id, store);
    assert PlainStore(store[id := Cached(env, store[id], vn)]);
    SpanAfter(env, parts, x, store, name, id, Cached(env, store[id], vn), TokensOf(env.tok, env.lang, GetVar(store[id], vn).value),
      store[id := Cached(env, store[id], vn)]);
  }

  lemma SpansRefine(env: Env, parts: seq<string>, x: State, s1: Store, s2: Store)
    requires x.cnt <= |parts| && x.bound.Keys == NamesBelow(parts, x.cnt) && Slots(x, s1)
    requires SpansAll(env, parts, x, s1) && PlainStore(s1) && StoreRefines(env.tok, env.lang, s1, s2)
    ensures SpansAll(env, parts, x, s2)
  {
    forall c | 0 <= c < x.cnt && CalledName(parts, c).Some?
      ensures SpanOf(env, parts, c, x.mpos, x.bound, s2)
    {
      SpanRefinesAt(env, parts, x, s1, s2, c);
    }
  }

  lemma SpanRefinesAt(env: Env, parts: seq<string>, x: State, s1: Store, s2: Store, c: nat)
    requires x.cnt <= |parts| && x.bound.Keys == NamesBelow(parts, x.cnt) && Slots(x, s1)
    requires c < x.cnt && CalledName(parts, c).Some? && SpanOf(env, parts, c, x.mpos, x.bound, s1)
    requires PlainStore(s1) && StoreRefines(env.tok, env.lang, s1, s2)
    ensures SpanOf(env, parts, c, x.mpos, x.bound, s2)
  {
    NamesBelowMono(parts, c + 1, x.cnt);
    assert PlainVariant(s1[x.bound[CalledName(parts, c).value]]);
    SpanOfRefine(env, parts, c, x.mpos, x.bound, s1, s2);
  }

  /** A call's entries stay right when only the store is refined. */
  lemma SpanOfRefine(env: Env, parts: seq<string>, c: nat, m: MPos, b: map<string, nat>, s1: Store, s2: Store)
    requires c < |parts| && CalledName(parts, c).Some? && SpanOf(env, parts, c, m, b, s1)
    requires forall k :: k in NamesBelow(parts, c + 1) ==> k in b && b[k] < |s1|
    requires StoreRefines(env.tok, env.lang, s1, s2) && PlainVariant(s1[b[CalledName(parts, c).value]])
    ensures SpanOf(env, parts, c, m, b, s2)
  {
    RenderStable(env, parts, c, b, s1, b, s2);
    RenderStable(env, parts, c + 1, b, s1, b, s2);
    var n := CalledName(parts, c).value;
    VarsMove(env, n, Occ(parts, c, n), s1[b[n]], s2[b[n]], m, m);
  }

  /** Refining the store keeps the position map right. */
  lemma SpanRefines(env: Env, parts: seq<string>, x: State, s1: Store, s2: Store)
    requires SpanGood(env, parts, x, s1) && StoreRefines(env.tok, env.lang, s1, s2) && PlainStore(s2)
    ensures SpanGood(env, parts, x, s2)
  {
    GoodRefines(env, parts, x, s1, s2);
    SpansRefine(env, parts, x, s1, s2);
  }

  lemma AllSpanRefines(env: Env, parts: seq<string>, xs: seq<State>, c: nat, s1: Store, s2: Store)
    requires forall y :: y in xs ==> y.cnt == c && Slots(y, s1) && SpanGood(env, parts, y, s1)
    requires StoreRefines(env.tok, env.lang, s1, s2) && PlainStore(s2)
    ensures forall y :: y in xs ==> y.cnt == c && Slots(y, s2) && SpanGood(env, parts, y, s2)
  {
    forall y | y in xs
      ensures Slots(y, s2) && SpanGood(env, parts, y, s2)
    {
      SpanRefines(env, parts, y, s1, s2);
    }
  }

  lemma {:induction false} FanSpans(env: Env, parts: seq<string>, x: State, name: string, vn: string,
    ids: seq<nat>, i: nat, store: Store, acc: seq<State>)
    requires SpanGood(env, parts, x, store) && x.cnt < |parts| && x.cnt % 2 == 1
    requires Call(parts[x.cnt]) == Some((name, vn)) && name != EMPTY
    requires i <= |ids| && forall j :: 0 <= j < |ids| ==> ids[j] < |store|
    requires name in x.bound ==> forall j :: 0 <= j < |ids| ==> ids[j] == x.bound[name]
    requires forall y :: y in acc ==> y.cnt == x.cnt + 1 && Slots(y, store) && SpanGood(env, parts, y, store)
    ensures FanFrom(env, x, name, vn, FreeOcc(x.mpos, name, 0), ids, i, store, acc).Ok? ==>
      PlainStore(FanFrom(env, x, name, vn, FreeOcc(x.mpos, name, 0), ids, i, store, acc).value.1) &&
      forall y :: y in FanFrom(env, x, name, vn, FreeOcc(x.mpos, name, 0), ids, i, store, acc).value.0 ==>
        SpanGood(env, parts, y, FanFrom(env, x, name, vn, FreeOcc(x.mpos, name, 0), ids, i, store, acc).value.1)
    decreases |ids| - i
  {
    var m := FreeOcc(x.mpos, name, 0);
    if i < |ids| && Take(env, x, name, vn, m, ids[i], store).Ok? {
      var t := Take(env, x, name, vn, m, ids[i], store).value;
      FanSpansStep(env, parts, x, name, vn, ids, i, store, acc);
      FanStep(env, x, name, vn, m, ids, i, store, acc);
      assert FanFrom(env, x, name, vn, m, ids, i, store, acc) == FanFrom(env, x, name, vn, m, ids, i + 1, t.1, acc + [t.0]);
      FanSpans(env, parts, x, name, vn, ids, i + 1, t.1, acc + [t.0]);
    }
  }

  /** After one turn of the loop, the item, the successors so far and the
      new one all keep their spans in the new store. */
  lemma FanSpansStep(env: Env, parts: seq<string>, x: State, name: string, vn: string,
    ids: seq<nat>, i: nat, store: Store, acc: seq<State>)
    requires SpanGood(env, parts, x, store) && x.cnt < |parts| && x.cnt % 2 == 1
    requires Call(parts[x.cnt]) == Some((name, vn)) && name != EMPTY
    requires i < |ids| && forall j :: 0 <= j < |ids| ==> ids[j] < |store|
    requires name in x.bound ==> forall j :: 0 <= j < |ids| ==> ids[j] == x.bound[name]
    requires forall y :: y in acc ==> y.cnt == x.cnt + 1 && Slots(y, store) && SpanGood(env, parts, y, store)
    requires Take(env, x, name, vn, FreeOcc(x.mpos, name, 0), ids[i], store).Ok?
    ensures SpanGood(env, parts, x, Take(env, x, name, vn, FreeOcc(x.mpos, name, 0), ids[i], store).value.1)
    ensures forall y :: y in acc + [Take(env, x, name, vn, FreeOcc(x.mpos, name, 0), ids[i], store).value.0] ==>
      y.cnt == x.cnt + 1 && Slots(y, Take(env, x, name, vn, FreeOcc(x.mpos, name, 0), ids[i], store).value.1) &&
      SpanGood(env, parts, y, Take(env, x, name, vn, FreeOcc(x.mpos, name, 0), ids[i], store).value.1)
  {
    TakeSpans(env, parts, x, name, vn, ids[i], store);
    SpanRefines(env, parts, x, store, Take(env, x, name, vn, FreeOcc(x.mpos, name, 0), ids[i], store).value.1);
    AllSpanRefines(env, parts, acc, x.cnt + 1, store, Take(env, x, name, vn, FreeOcc(x.mpos, name, 0), ids[i], store).value.1);
    FanStep(env, x, name, vn, FreeOcc(x.mpos, name, 0), ids, i, store, acc);
  }

  lemma StepSpansCall(env: Env, parts: seq<string>, x: State, store: Store, name: string, vn: string)
    requires PlainEnv(env) && SpanGood(env, parts, x, store) && x.cnt < |parts| && x.cnt % 2 == 1
    requires Call(parts[x.cnt]) == Some((name, vn)) && name != EMPTY
    ensures Step(env, parts, x, store).Ok? ==> (PlainStore(Step(env, parts, x, store).value.1) &&
      forall y :: y in Step(env, parts, x, store).value.0 ==> SpanGood(env, parts, y, Step(env, parts, x, store).value.1))
  {
    if name in x.bound {
      FanSpans(env, parts, x, name, vn, [x.bound[name]], 0, store, []);
    } else if |Candidates(env, name)| > 0 {
      assert StoreRefines(env.tok, env.lang, store, store + Candidates(env, name));
      assert PlainStore(store + Candidates(env, name));
      SpanRefines(env, parts, x, store, store + Candidates(env, name));
      FanSpans(env, parts, x, name, vn, Range(|store|, |Candidates(env, name)|), 0, store + Candidates(env, name), []);
    }
  }

  /** A literal part or an `empty` call moves the item on unchanged but
      for its tokens. */
  lemma StepPlainShape(env: Env, parts: seq<string>, x: State, store: Store)
    requires x.cnt < |parts| && Slots(x, store) && CalledName(parts, x.cnt).None?
    ensures Step(env, parts, x, store).Ok? ==> (Step(env, parts, x, store).value.1 == store &&
      |Step(env, parts, x, store).value.0| == 1 && Step(env, parts, x, store).value.0[0].mpos == x.mpos &&
      Step(env, parts, x, store).value.0[0].bound == x.bound)
  {
  }

  lemma SpansSame(env: Env, parts: seq<string>, x: State, y: State, store: Store)
    requires x.cnt < |parts| && CalledName(parts, x.cnt).None? && SpansAll(env, parts, x, store)
    requires y.cnt == x.cnt + 1 && y.mpos == x.mpos && y.bound == x.bound
    ensures SpansAll(env, parts, y, store)
  {
  }

  lemma StepSpansPlain(env: Env, parts: seq<string>, x: State, store: Store)
    requires SpanGood(env, parts, x, store) && x.cnt < |parts| && CalledName(parts, x.cnt).None?
    ensures Step(env, parts, x, store).Ok? ==> (PlainStore(Step(env, parts, x, store).value.1) &&
      forall y :: y in Step(env, parts, x, store).value.0 ==> SpanGood(env, parts, y, Step(env, parts, x, store).value.1))
  {
    StepGood(env, parts, x, store);
    if Step(env, parts, x, store).Ok? {
      StepPlainShape(env, parts, x, store);
      KeysSame(parts, x, Step(env, parts, x, store).value.0[0]);
      SpansSame(env, parts, x, Step(env, parts, x, store).value.0[0], store);
    }
  }

  /** One pop keeps the position map right. */
  lemma StepSpans(env: Env, parts: seq<string>, x: State, store: Store)
    requires PlainEnv(env) && SpanGood(env, parts, x, store) && x.cnt < |parts|
    ensures Step(env, parts, x, store).Ok? ==> (PlainStore(Step(env, parts, x, store).value.1) &&
      forall y :: y in Step(env, parts, x, store).value.0 ==> (y.cnt == x.cnt + 1 && Slots(y, Step(env, parts, x, store).value.1) &&
        SpanGood(env, parts, y, Step(env, parts, x, store).value.1)))
  {
    if CalledName(parts, x.cnt).Some? {
      StepSpansCall(env, parts, x, store, Call(parts[x.cnt]).value.0, Call(parts[x.cnt]).value.1);
    } else {
      StepSpansPlain(env, parts, x, store);
    }
  }

  /** Every completed item of a run keeps the position map right. */
  ghost predicate RunSpanGood(env: Env, parts: seq<string>, res: Result<(seq<State>, Store), Error>)
  {
    res.Ok? ==> (PlainStore(res.value.1) &&
      forall y :: y in res.value.0 ==> y.cnt == |parts| && SpanGood(env, parts, y, res.value.1))
  }

  lemma {:induction false} LeavesSpans(env: Env, parts: seq<string>, x: State, store: Store)
    requires PlainEnv(env) && SpanGood(env, parts, x, store)
    ensures RunSpanGood(env, parts, Leaves(env, parts, x, store))
    decreases |parts| - x.cnt, 2
  {
    if x.cnt >= |parts| {
      LeavesDone(env, parts, x, store);
    } else if Step(env, parts, x, store).Ok? {
      LeavesSpansStep(env, parts, x, store);
    } else {
      LeavesStepErr(env, parts, x, store);
    }
  }

  /** The case of an item that steps. */
  lemma {:induction false} LeavesSpansStep(env: Env, parts: seq<string>, x: State, store: Store)
    requires PlainEnv(env) && SpanGood(env, parts, x, store)
    requires x.cnt < |parts| && Step(env, parts, x, store).Ok?
    ensures RunSpanGood(env, parts, Leaves(env, parts, x, store))
    decreases |parts| - x.cnt, 1
  {
    StepSpans(env, parts, x, store);
    LeavesOfSpans(env, parts, x.cnt + 1, Step(env, parts, x, store).value.0, Step(env, parts, x, store).value.1);
    LeavesStepSpans(env, parts, x, store);
  }

  lemma LeavesStepSpans(env: Env, parts: seq<string>, x: State, store: Store)
    requires Slots(x, store) && x.cnt < |parts| && Step(env, parts, x, store).Ok?
    requires RunSpanGood(env, parts, LeavesOf(env, parts, x.cnt + 1, Step(env, parts, x, store).value.0, Step(env, parts, x, store).value.1))
    ensures RunSpanGood(env, parts, Leaves(env, parts, x, store))
  {
    LeavesStep(env, parts, x, store);
  }

  lemma {:induction false} LeavesOfSpans(env: Env, parts: seq<string>, c: nat, succs: seq<State>, store: Store)
    requires PlainEnv(env) && 0 < c <= |parts| && PlainStore(store)
    requires forall y :: y in succs ==> y.cnt == c && Slots(y, store) && SpanGood(env, parts, y, store)
    ensures RunSpanGood(env, parts, LeavesOf(env, parts, c, succs, store))
    decreases |parts| - c + 1, 0, |succs|
  {
    if |succs| > 0 {
      assert succs[|succs| - 1] in succs;
      if Leaves(env, parts, succs[|succs| - 1], store).Ok? {
        LeavesSpans(env, parts, succs[|succs| - 1], store);
        assert forall y :: y in succs[..|succs| - 1] ==> y in succs;
        AllSpanRefines(env, parts, succs[..|succs| - 1], c, store, Leaves(env, parts, succs[|succs| - 1], store).value.1);
        LeavesOfSpans(env, parts, c, succs[..|succs| - 1], Leaves(env, parts, succs[|succs| - 1], store).value.1);
        if LeavesOf(env, parts, c, succs[..|succs| - 1], Leaves(env, parts, succs[|succs| - 1], store).value.1).Ok? {
          AllSpanRefines(env, parts, Leaves(env, parts, succs[|succs| - 1], store).value.0, |parts|,
            Leaves(env, parts, succs[|succs| - 1], store).value.1,
            LeavesOf(env, parts, c, succs[..|succs| - 1], Leaves(env, parts, succs[|succs| - 1], store).value.1).value.1);
        }
      }
    }
  }

  /** For every completed item and every call at part `c` of `name`, that
      call is occurrence `Occ(parts, c, name)` of `name`; its start key holds
      the number of tokens rendered before it and its end key the number
      after it, so the end minus the start is the length of the variable's
      tokens, and the spans of later calls start no earlier; each variable of
      the chosen variant has its key; and the span keys present are exactly
      those of the calls. */
  lemma ExpandSpans(env: Env, parts: seq<string>)
    requires PlainEnv(env)
    ensures Leaves(env, parts, Init(), []).Ok? ==> forall y :: y in Leaves(env, parts, Init(), []).value.0 ==>
      y.cnt == |parts| && KeysAt(parts, y) &&
      y.r == Render(env, parts, |parts|, y.bound, Leaves(env, parts, Init(), []).value.1) &&
      forall c :: 0 <= c < |parts| && CalledName(parts, c).Some? ==>
        SpanOf(env, parts, c, y.mpos, y.bound, Leaves(env, parts, Init(), []).value.1)
  {
    assert KeysAt(parts, Init());
    LeavesSpans(env, parts, Init(), []);
  }

  /** Rendering more parts extends the tokens. */
  lemma {:induction false} RenderPrefix(env: Env, parts: seq<string>, c: nat, n: nat, bound: map<string, nat>, store: Store)
    requires c <= n <= |parts|
    ensures Render(env, parts, c, bound, store) <= Render(env, parts, n, bound, store)
    decreases n
  {
    if c < n {
      RenderPrefix(env, parts, c, n - 1, bound, store);
    }
  }
}
