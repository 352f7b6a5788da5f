/** How many sentences `_expand_macros` produces and when it fails
    (zamiaai/data_engine.py:148-275): one completed item per choice of one
    variant for every distinct macro name the template calls, and an error
    as soon as any call is malformed or names a macro that is neither named
    nor implicit, whatever the other calls are. */
module Counts {
  import opened Wrappers
  import opened Macros
  import opened Template
  import opened Expansion
  import opened Branches

  /** The names called from part `c` on that are not in `known`, each once,
      in the order of their first call. */
  function NewNames(parts: seq<string>, c: nat, known: set<string>): seq<string>
    requires c <= |parts|
    decreases |parts| - c
  {
    if c == |parts| then []
    else if CalledName(parts, c).Some? && CalledName(parts, c).value !in known then
      [CalledName(parts, c).value] + NewNames(parts, c + 1, known + {CalledName(parts, c).value})
    else NewNames(parts, c + 1, known)
  }

  /** The listed names are new and listed once each. */
  lemma {:induction false} NewNamesFresh(parts: seq<string>, c: nat, known: set<string>)
    requires c <= |parts|
    ensures forall i :: 0 <= i < |NewNames(parts, c, known)| ==> NewNames(parts, c, known)[i] !in known
    ensures forall i, j :: 0 <= i < j < |NewNames(parts, c, known)| ==> NewNames(parts, c, known)[i] != NewNames(parts, c, known)[j]
    decreases |parts| - c
  {
    if c < |parts| {
      if CalledName(parts, c).Some? && CalledName(parts, c).value !in known {
        NewNamesFresh(parts, c + 1, known + {CalledName(parts, c).value});
      } else {
        NewNamesFresh(parts, c + 1, known);
      }
    }
  }

  /** Every name called at or after `c` and not yet known is listed. */
  lemma {:induction false} NewNamesCover(parts: seq<string>, c: nat, known: set<string>, c2: nat)
    requires c <= c2 < |parts| && CalledName(parts, c2).Some? && CalledName(parts, c2).value !in known
    ensures CalledName(parts, c2).value in NewNames(parts, c, known)
    decreases c2 - c
  {
    var cn := CalledName(parts, c);
    if cn.Some? && cn.value !in known {
      assert NewNames(parts, c, known) == [cn.value] + NewNames(parts, c + 1, known + {cn.value});
      if cn.value != CalledName(parts, c2).value {
        NewNamesCover(parts, c + 1, known + {cn.value}, c2);
      }
    } else {
      assert NewNames(parts, c, known) == NewNames(parts, c + 1, known);
      NewNamesCover(parts, c + 1, known, c2);
    }
  }

  /** Every listed name is called at or after `c`. */
  lemma NewNamesCalled(parts: seq<string>, c: nat, known: set<string>, i: nat)
    requires c <= |parts| && i < |NewNames(parts, c, known)|
    ensures exists c2 :: c <= c2 < |parts| && CalledName(parts, c2) == Some(NewNames(parts, c, known)[i])
  {
    var c2 := NewNameAt(parts, c, known, i);
  }

  /** The part at which the `i`-th listed name is called. */
  lemma {:induction false} NewNameAt(parts: seq<string>, c: nat, known: set<string>, i: nat) returns (c2: nat)
    requires c <= |parts| && i < |NewNames(parts, c, known)|
    ensures c <= c2 < |parts| && CalledName(parts, c2) == Some(NewNames(parts, c, known)[i])
    decreases |parts| - c
  {
    assert c < |parts|;
    var nn := NewNames(parts, c, known);
    var cn := CalledName(parts, c);
    if cn.Some? && cn.value !in known {
      var rest := NewNames(parts, c + 1, known + {cn.value});
      assert nn == [cn.value] + rest;
      if i == 0 {
        c2 := c;
      } else {
        c2 := NewNameAt(parts, c + 1, known + {cn.value}, i - 1);
        assert nn[i] == rest[i - 1];
      }
    } else {
      assert nn == NewNames(parts, c + 1, known);
      c2 := NewNameAt(parts, c + 1, known, i);
    }
  }

  /** The number of ways to choose one candidate variant for each name. */
  function Product(env: Env, names: seq<string>): nat
  {
    if |names| == 0 then 1 else |Candidates(env, names[0])| * Product(env, names[1..])
  }

  /** The successors of `for r3 in macro` bind the name to the slots in
      order. */
  lemma {:induction false} FanBound(env: Env, st: State, name: string, vn: string, m: nat, ids: seq<nat>, i: nat, store: Store,
    acc: seq<State>)
    requires i <= |ids| && forall j :: 0 <= j < |ids| ==> ids[j] < |store|
    requires Slots(st, store)
    requires forall x :: x in acc ==> x.cnt == st.cnt + 1 && Slots(x, store)
    requires |acc| == i && forall j :: 0 <= j < i ==> acc[j].bound == st.bound[name := ids[j]]
    ensures FanFrom(env, st, name, vn, m, ids, i, store, acc).Ok? ==>
      forall j :: 0 <= j < |ids| ==> FanFrom(env, st, name, vn, m, ids, i, store, acc).value.0[j].bound == st.bound[name := ids[j]]
    decreases |ids| - i
  {
    if i < |ids| && Take(env, st, name, vn, m, ids[i], store).Ok? {
      FanStep(env, st, name, vn, m, ids, i, store, acc);
      TakeCaches(env, st, name, vn, m, ids[i], store);
      FanBound(env, st, name, vn, m, ids, i + 1, Take(env, st, name, vn, m, ids[i], store).value.1,
        acc + [Take(env, st, name, vn, m, ids[i], store).value.0]);
    }
  }

  /** The names an item binds after part `x.cnt`. */
  function StepKeys(parts: seq<string>, x: State): set<string>
    requires x.cnt < |parts|
  {
    if CalledName(parts, x.cnt).Some? then x.bound.Keys + {CalledName(parts, x.cnt).value} else x.bound.Keys
  }

  /** The number of successors of one pop: the candidates of a name called
      for the first time, else one. */
  function StepWidth(env: Env, parts: seq<string>, x: State): nat
    requires x.cnt < |parts|
  {
    if CalledName(parts, x.cnt).Some? && CalledName(parts, x.cnt).value !in x.bound then
      |Candidates(env, CalledName(parts, x.cnt).value)|
    else 1
  }

  lemma StepCount(env: Env, parts: seq<string>, x: State, store: Store)
    requires x.cnt < |parts| && Slots(x, store)
    ensures Step(env, parts, x, store).Ok? ==> |Step(env, parts, x, store).value.0| == StepWidth(env, parts, x) > 0
    ensures Step(env, parts, x, store).Ok? ==>
      forall y :: y in Step(env, parts, x, store).value.0 ==> y.bound.Keys == StepKeys(parts, x)
  {
    if x.cnt % 2 == 1 && CalledName(parts, x.cnt).Some? {
      StepCountCall(env, parts, x, store, Call(parts[x.cnt]).value.0, Call(parts[x.cnt]).value.1);
    }
  }

  lemma StepCountCall(env: Env, parts: seq<string>, x: State, store: Store, name: string, vn: string)
    requires x.cnt < |parts| && Slots(x, store) && x.cnt % 2 == 1
    requires Call(parts[x.cnt]) == Some((name, vn)) && name != EMPTY
    ensures Step(env, parts, x, store).Ok? ==> |Step(env, parts, x, store).value.0| == StepWidth(env, parts, x) > 0
    ensures Step(env, parts, x, store).Ok? ==>
      forall y :: y in Step(env, parts, x, store).value.0 ==> y.bound.Keys == x.bound.Keys + {name}
  {
    if name in x.bound {
      FanBound(env, x, name, vn, FreeOcc(x.mpos, name, 0), [x.bound[name]], 0, store, []);
    } else if |Candidates(env, name)| > 0 {
      FanBound(env, x, name, vn, FreeOcc(x.mpos, name, 0), Range(|store|, |Candidates(env, name)|), 0,
        store + Candidates(env, name), []);
    }
  }

  /** One pop multiplies in the candidates of a newly called name. */
  lemma StepProduct(env: Env, parts: seq<string>, x: State)
    requires x.cnt < |parts|
    ensures StepWidth(env, parts, x) * Product(env, NewNames(parts, x.cnt + 1, StepKeys(parts, x))) ==
      Product(env, NewNames(parts, x.cnt, x.bound.Keys))
  {
    if CalledName(parts, x.cnt).Some? && CalledName(parts, x.cnt).value in x.bound {
      assert StepKeys(parts, x) == x.bound.Keys;
    }
  }

  lemma {:induction false} LeavesCount(env: Env, parts: seq<string>, x: State, store: Store)
    requires x.cnt <= |parts| && Slots(x, store)
    ensures Leaves(env, parts, x, store).Ok? ==>
      |Leaves(env, parts, x, store).value.0| == Product(env, NewNames(parts, x.cnt, x.bound.Keys))
    decreases |parts| - x.cnt, 2
  {
    if x.cnt >= |parts| {
      LeavesDone(env, parts, x, store);
    } else if Step(env, parts, x, store).Ok? {
      LeavesCountStep(env, parts, x, store);
    } else {
      LeavesStepErr(env, parts, x, store);
    }
  }

  lemma {:induction false} LeavesCountStep(env: Env, parts: seq<string>, x: State, store: Store)
    requires x.cnt < |parts| && Slots(x, store) && Step(env, parts, x, store).Ok?
    ensures Leaves(env, parts, x, store).Ok? ==>
      |Leaves(env, parts, x, store).value.0| == Product(env, NewNames(parts, x.cnt, x.bound.Keys))
    decreases |parts| - x.cnt, 1
  {
    var a := Step(env, parts, x, store).value;
    var keys := StepKeys(parts, x);
    StepCount(env, parts, x, store);
    LeavesStep(env, parts, x, store);
    LeavesOfCount(env, parts, x.cnt + 1, a.0, a.1, keys);
    StepProduct(env, parts, x);
    var p := Product(env, NewNames(parts, x.cnt + 1, keys));
    assert |a.0| * p == StepWidth(env, parts, x) * p;
  }

  lemma {:induction false} LeavesOfCount(env: Env, parts: seq<string>, c: nat, succs: seq<State>, store: Store, keys: set<string>)
    requires 0 < c <= |parts|
    requires forall y :: y in succs ==> y.cnt == c && Slots(y, store) && y.bound.Keys == keys
    ensures LeavesOf(env, parts, c, succs, store).Ok? ==>
      |LeavesOf(env, parts, c, succs, store).value.0| == |succs| * Product(env, NewNames(parts, c, keys))
    decreases |parts| - c + 1, 0, |succs|
  {
    if |succs| > 0 {
      assert succs[|succs| - 1] in succs;
      if Leaves(env, parts, succs[|succs| - 1], store).Ok? {
        LeavesCount(env, parts, succs[|succs| - 1], store);
        assert forall y :: y in succs[..|succs| - 1] ==> y in succs;
        SlotsGrow(succs[..|succs| - 1], store, Leaves(env, parts, succs[|succs| - 1], store).value.1);
        LeavesOfCount(env, parts, c, succs[..|succs| - 1], Leaves(env, parts, succs[|succs| - 1], store).value.1, keys);
        assert |succs| * Product(env, NewNames(parts, c, keys)) ==
          Product(env, NewNames(parts, c, keys)) + (|succs| - 1) * Product(env, NewNames(parts, c, keys));
      }
    }
  }

  /** A successful expansion yields the product, over the distinct macro
      names the template calls, of their numbers of variants (counting a
      named macro's variants when the lookup finds any, else the implicit
      macro's alternatives). */
  lemma ExpandCount(env: Env, parts: seq<string>)
    ensures Expand(env, parts).Ok? ==> |Expand(env, parts).value| == Product(env, NewNames(parts, 0, {}))
  {
    assert Init().bound.Keys == {};
    LeavesCount(env, parts, Init(), []);
  }

  /** Part `c` is a call the source rejects: not of the form `name:var`, or
      of a name that is neither `empty` nor named nor implicit. */
  predicate BadAt(env: Env, parts: seq<string>, c: nat)
  {
    c < |parts| && c % 2 == 1 &&
    (Call(parts[c]).None? || (Call(parts[c]).value.0 != EMPTY && |Candidates(env, Call(parts[c]).value.0)| == 0))
  }

  /** Every name an item binds has candidates. */
  predicate Known(env: Env, x: State)
  {
    forall n :: n in x.bound ==> |Candidates(env, n)| > 0
  }

  lemma StepKnown(env: Env, parts: seq<string>, x: State, store: Store)
    requires x.cnt < |parts| && Slots(x, store) && Known(env, x)
    ensures Step(env, parts, x, store).Ok? ==> forall y :: y in Step(env, parts, x, store).value.0 ==> Known(env, y)
  {
    StepCount(env, parts, x, store);
  }

  lemma {:induction false} LeavesFails(env: Env, parts: seq<string>, x: State, store: Store, c: nat)
    requires Slots(x, store) && Known(env, x) && x.cnt <= c && BadAt(env, parts, c)
    ensures Leaves(env, parts, x, store).Err?
    decreases c - x.cnt
  {
    if x.cnt < c && Step(env, parts, x, store).Ok? {
      StepCount(env, parts, x, store);
      StepKnown(env, parts, x, store);
      assert Step(env, parts, x, store).value.0[|Step(env, parts, x, store).value.0| - 1] in Step(env, parts, x, store).value.0;
      LeavesFails(env, parts, Step(env, parts, x, store).value.0[|Step(env, parts, x, store).value.0| - 1],
        Step(env, parts, x, store).value.1, c);
    }
  }

  /** One rejected call anywhere in the template makes the expansion fail,
      whichever variants the other calls choose. */
  lemma ExpandFails(env: Env, parts: seq<string>, c: nat)
    requires BadAt(env, parts, c)
    ensures Expand(env, parts).Err?
  {
    LeavesFails(env, parts, Init(), [], c);
  }

  /** An alternation group without a closing `)` fails the whole expansion. */
  lemma ExpandTextUnclosed(tok: Tokenizer, lang: string, named: string -> seq<Variant>, chunks: seq<Chunk>, rest: string)
    requires WellFormed(chunks) && ')' !in rest
    ensures ExpandText(tok, lang, named, Flatten(chunks) + "(" + rest) == Err(MissingParen)
  {
    ScanFailsUnclosed(tok, lang, chunks, rest);
  }

  /** A well-formed text expands as its rewritten template with one implicit
      macro per alternation group. */
  lemma ExpandTextWellFormed(tok: Tokenizer, lang: string, named: string -> seq<Variant>, chunks: seq<Chunk>)
    requires WellFormed(chunks)
    ensures ExpandText(tok, lang, named, Flatten(chunks)) ==
      Expand(Env(lang, tok, named, ImplicitOf(tok, lang, Bodies(chunks))), Parts(Rewritten(chunks, 0)))
  {
    ScanWellFormed(tok, lang, chunks);
  }
}
