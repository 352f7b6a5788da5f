/** The explicit work list of `_expand_macros` (zamiaai/data_engine.py:193-273):
    how `RunAll` over a stack decomposes when the top item is popped and its
    successors are pushed, and how many pops are left. */
module Worklist {
  import opened Wrappers
  import opened Macros
  import opened Expansion

  /** Every item of a work list has its slots in the store. */
  predicate AllSlots(todo: seq<State>, store: Store)
  {
    forall x :: x in todo ==> Slots(x, store)
  }

  /** The completed items `done` followed by those of the rest of the run. */
  function Finish(done: seq<State>, r: Result<(seq<State>, Store), Error>): Result<seq<State>, Error>
  {
    match r
    case Err(e) => Err(e)
    case Ok(a) => Ok(done + a.0)
  }

  /** Running the successors of an item, then the rest of the stack below
      them. */
  function Then(env: Env, parts: seq<string>, first: Result<(seq<State>, Store), Error>, rest: seq<State>, store: Store)
    : Result<(seq<State>, Store), Error>
    requires AllSlots(rest, store)
    requires first.Ok? ==> |store| <= |first.value.1|
  {
    match first
    case Err(e) => Err(e)
    case Ok(a) =>
      SlotsGrow(rest, store, a.1);
      match RunAll(env, parts, rest, a.1)
      case Err(e) => Err(e)
      case Ok(b) => Ok((a.0 + b.0, b.1))
  }

  /** The number of pops the source makes on a work item before it is
      finished or the expansion fails. */
  function LeavesPops(env: Env, parts: seq<string>, st: State, store: Store): nat
    requires Slots(st, store)
    decreases |parts| - st.cnt, 1, 0
  {
    if st.cnt >= |parts| then 1
    else match Step(env, parts, st, store)
      case Err(_) => 1
      case Ok(a) => 1 + PopsOf(env, parts, st.cnt + 1, a.0, a.1)
  }

  function PopsOf(env: Env, parts: seq<string>, c: nat, succs: seq<State>, store: Store): nat
    requires 0 < c <= |parts|
    requires forall x :: x in succs ==> x.cnt == c && Slots(x, store)
    decreases |parts| - c + 1, 0, |succs|
  {
    if |succs| == 0 then 0
    else
      LeavesPops(env, parts, succs[|succs| - 1], store) +
      match Leaves(env, parts, succs[|succs| - 1], store)
      case Err(_) => 0
      case Ok(a) =>
        SlotsGrow(succs[..|succs| - 1], store, a.1);
        PopsOf(env, parts, c, succs[..|succs| - 1], a.1)
  }

  function PopsAll(env: Env, parts: seq<string>, todo: seq<State>, store: Store): nat
    requires AllSlots(todo, store)
    decreases |todo|
  {
    if |todo| == 0 then 0
    else
      LeavesPops(env, parts, todo[|todo| - 1], store) +
      match Leaves(env, parts, todo[|todo| - 1], store)
      case Err(_) => 0
      case Ok(a) =>
        SlotsGrow(todo[..|todo| - 1], store, a.1);
        PopsAll(env, parts, todo[..|todo| - 1], a.1)
  }

  /** The same for the successors followed by the rest. */
  function PopsThen(env: Env, parts: seq<string>, c: nat, succs: seq<State>, rest: seq<State>, store: Store): nat
    requires 0 < c <= |parts|
    requires forall x :: x in succs ==> x.cnt == c && Slots(x, store)
    requires AllSlots(rest, store)
  {
    PopsOf(env, parts, c, succs, store) +
    match LeavesOf(env, parts, c, succs, store)
    case Err(_) => 0
    case Ok(a) =>
      SlotsGrow(rest, store, a.1);
      PopsAll(env, parts, rest, a.1)
  }

  /** A run's completed items with `xs` in front. */
  function Prepend(xs: seq<State>, r: Result<(seq<State>, Store), Error>): Result<(seq<State>, Store), Error>
  {
    match r
    case Err(e) => Err(e)
    case Ok(b) => Ok((xs + b.0, b.1))
  }

  /** Pushing successors on top of `rest` runs them first, the last pushed
      first, and then `rest`. */
  lemma {:induction false} RunAllAppend(env: Env, parts: seq<string>, rest: seq<State>, c: nat, succs: seq<State>, store: Store)
    requires 0 < c <= |parts|
    requires forall x :: x in succs ==> x.cnt == c && Slots(x, store)
    requires AllSlots(rest, store)
    ensures AllSlots(rest + succs, store)
    ensures RunAll(env, parts, rest + succs, store) == Then(env, parts, LeavesOf(env, parts, c, succs, store), rest, store)
    ensures PopsAll(env, parts, rest + succs, store) == PopsThen(env, parts, c, succs, rest, store)
    decreases |succs|
  {
    if |succs| == 0 {
      assert rest + succs == rest;
      match RunAll(env, parts, rest, store)
      case Err(_) =>
      case Ok(b) => assert [] + b.0 == b.0;
    } else {
      assert (rest + succs)[..|rest + succs| - 1] == rest + succs[..|succs| - 1];
      assert (rest + succs)[|rest + succs| - 1] == succs[|succs| - 1];
      match Leaves(env, parts, succs[|succs| - 1], store)
      case Err(_) =>
      case Ok(a) =>
        SlotsGrow(rest, store, a.1);
        SlotsGrow(succs[..|succs| - 1], store, a.1);
        RunAllAppend(env, parts, rest, c, succs[..|succs| - 1], a.1);
        assert LeavesOf(env, parts, c, succs, store) == Prepend(a.0, LeavesOf(env, parts, c, succs[..|succs| - 1], a.1));
        assert RunAll(env, parts, rest + succs, store) == Prepend(a.0, RunAll(env, parts, rest + succs[..|succs| - 1], a.1));
        PrependThen(env, parts, a.0, LeavesOf(env, parts, c, succs[..|succs| - 1], a.1), rest, store, a.1);
    }
  }

  /** Items in front of the successors' leaves stay in front after the rest
      is run. */
  lemma PrependThen(env: Env, parts: seq<string>, xs: seq<State>, r: Result<(seq<State>, Store), Error>, rest: seq<State>,
    store: Store, s: Store)
    requires AllSlots(rest, store) && AllSlots(rest, s) && |store| <= |s|
    requires r.Ok? ==> |s| <= |r.value.1|
    ensures Then(env, parts, Prepend(xs, r), rest, store) == Prepend(xs, Then(env, parts, r, rest, s))
  {
    if r.Ok? {
      SlotsGrow(rest, store, r.value.1);
      match RunAll(env, parts, rest, r.value.1)
      case Err(_) =>
      case Ok(b) =>
        assert xs + r.value.0 + b.0 == xs + (r.value.0 + b.0);
    }
  }

  /** Popping a completed item moves it to `done`. */
  lemma PopFinished(env: Env, parts: seq<string>, todo: seq<State>, store: Store, done: seq<State>)
    requires |todo| > 0 && AllSlots(todo, store) && todo[|todo| - 1].cnt >= |parts|
    ensures AllSlots(todo[..|todo| - 1], store)
    ensures Finish(done + [todo[|todo| - 1]], RunAll(env, parts, todo[..|todo| - 1], store)) ==
      Finish(done, RunAll(env, parts, todo, store))
    ensures PopsAll(env, parts, todo[..|todo| - 1], store) < PopsAll(env, parts, todo, store)
  {
    assert forall x :: x in todo[..|todo| - 1] ==> x in todo;
    match RunAll(env, parts, todo[..|todo| - 1], store)
    case Err(_) =>
    case Ok(b) =>
      assert done + [todo[|todo| - 1]] + b.0 == done + ([todo[|todo| - 1]] + b.0);
  }

  /** Popping an item whose step fails ends the run with that error. */
  lemma PopFails(env: Env, parts: seq<string>, todo: seq<State>, store: Store, done: seq<State>)
    requires |todo| > 0 && AllSlots(todo, store) && todo[|todo| - 1].cnt < |parts|
    requires Step(env, parts, todo[|todo| - 1], store).Err?
    ensures Finish(done, RunAll(env, parts, todo, store)) == Err(Step(env, parts, todo[|todo| - 1], store).error)
  {
  }

  /** Popping an unfinished item and pushing its successors, with the store
      the step leaves, continues the same run with fewer pops left. */
  lemma PopStep(env: Env, parts: seq<string>, todo: seq<State>, store: Store, succs: seq<State>, store1: Store)
    requires |todo| > 0 && AllSlots(todo, store) && todo[|todo| - 1].cnt < |parts|
    requires Step(env, parts, todo[|todo| - 1], store) == Ok((succs, store1))
    ensures AllSlots(todo[..|todo| - 1] + succs, store1)
    ensures RunAll(env, parts, todo[..|todo| - 1] + succs, store1) == RunAll(env, parts, todo, store)
    ensures PopsAll(env, parts, todo[..|todo| - 1] + succs, store1) < PopsAll(env, parts, todo, store)
  {
    assert forall x :: x in todo[..|todo| - 1] ==> x in todo;
    SlotsGrow(todo[..|todo| - 1], store, store1);
    RunAllAppend(env, parts, todo[..|todo| - 1], todo[|todo| - 1].cnt + 1, succs, store1);
    TopSplit(env, parts, todo, store, succs, store1);
  }

  /** The run of a stack whose top item steps to `succs`. */
  lemma TopSplit(env: Env, parts: seq<string>, todo: seq<State>, store: Store, succs: seq<State>, store1: Store)
    requires |todo| > 0 && AllSlots(todo, store) && todo[|todo| - 1].cnt < |parts|
    requires Step(env, parts, todo[|todo| - 1], store) == Ok((succs, store1))
    requires AllSlots(todo[..|todo| - 1], store) && AllSlots(todo[..|todo| - 1], store1)
    ensures Then(env, parts, LeavesOf(env, parts, todo[|todo| - 1].cnt + 1, succs, store1), todo[..|todo| - 1], store1) ==
      RunAll(env, parts, todo, store)
    ensures PopsThen(env, parts, todo[|todo| - 1].cnt + 1, succs, todo[..|todo| - 1], store1) < PopsAll(env, parts, todo, store)
  {
    assert Leaves(env, parts, todo[|todo| - 1], store) == LeavesOf(env, parts, todo[|todo| - 1].cnt + 1, succs, store1);
    assert LeavesPops(env, parts, todo[|todo| - 1], store) == 1 + PopsOf(env, parts, todo[|todo| - 1].cnt + 1, succs, store1);
  }

  /** A work list of one item runs that item. */
  lemma RunAllOne(env: Env, parts: seq<string>, x: State, store: Store)
    requires Slots(x, store)
    ensures AllSlots([x], store)
    ensures Finish([], RunAll(env, parts, [x], store)) == Finish([], Leaves(env, parts, x, store))
  {
    assert [x][..0] == [];
    match Leaves(env, parts, x, store)
    case Err(_) =>
    case Ok(a) => assert [] + (a.0 + []) == [] + a.0;
  }
}
