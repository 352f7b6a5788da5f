/** The checks on authored conversation data before the kernel replays it:
    the collection loop of `AIKernal.compile_module` (ai_kernal.py:383-395)
    over the `nlp_train(Module, Lang, Data)` solutions, and the start of each
    test of `AIKernal.test_module` (ai_kernal.py:804-818). The Prolog search
    that produces the solutions is not part of this model: its results are
    the inputs. */
module DataChecks {
  import opened Wrappers
  import opened Terms

  /** One `nlp_train` solution: the `LANG` and `DATA` bindings. */
  type TrainSolution = (Term, Term)

  /** The collection loop as written: every solution's data must be a list
      whose length is a multiple of 4 (prep, tokens, g-code, r-code per
      round); each list goes on the work list at position 0. `utt_lang` is a
      single variable the loop overwrites, so what is left of it afterwards
      is the language of the last solution (None when there is none). */
  function TrainTodo(sols: seq<TrainSolution>): Result<(Option<string>, seq<seq<Term>>), KError>
  {
    if |sols| == 0 then Ok((None, []))
    else
      match TrainTodo(sols[..|sols| - 1])
      case Err(e) => Err(e)
      case Ok(acc) =>
        var sol := sols[|sols| - 1];
        match NameOf(sol.0)
        case Err(e) => Err(e)
        case Ok(lang) =>
          match ListOf(sol.1)
          case Err(e) => Err(e)
          case Ok(data) =>
            if |data| % 4 != 0 then Err(TrainDataLength)
            else Ok((Some(lang), acc.1 + [data]))
  }

  /** Once a solution raised, the later ones are never looked at. */
  lemma {:induction false} TrainTodoStops(sols: seq<TrainSolution>, k: nat)
    requires k <= |sols| && TrainTodo(sols[..k]).Err?
    ensures TrainTodo(sols) == TrainTodo(sols[..k])
    decreases |sols| - k
  {
    if k == |sols| {
      assert sols[..k] == sols;
    } else {
      assert sols[..k + 1][..k] == sols[..k];
      TrainTodoStops(sols, k + 1);
    }
  }

  /** The solution is well formed: a predicate for the language and a list
      of a multiple of 4 terms for the data. */
  predicate GoodTrain(sol: TrainSolution)
  {
    sol.0.Predicate? && sol.1.ListLiteral? && |sol.1.l| % 4 == 0
  }

  /** `for solution in solutions: ... todo.append((data, 0, None, {}))`. */
  method CollectTraining(sols: seq<TrainSolution>) returns (res: Result<(Option<string>, seq<seq<Term>>), KError>)
    ensures res == TrainTodo(sols)
  {
    var uttLang: Option<string> := None;
    var todo: seq<seq<Term>> := [];
    for i := 0 to |sols|
      invariant TrainTodo(sols[..i]) == Ok((uttLang, todo))
    {
      assert sols[..i + 1][..i] == sols[..i];
      var lang := NameOf(sols[i].0);
      if lang.Err? {
        TrainTodoStops(sols, i + 1);
        return Err(lang.error);
      }
      uttLang := Some(lang.value);
      var data := ListOf(sols[i].1);
      if data.Err? {
        TrainTodoStops(sols, i + 1);
        return Err(data.error);
      }
      if |data.value| % 4 != 0 {
        TrainTodoStops(sols, i + 1);
        return Err(TrainDataLength);
      }
      todo := todo + [data.value];
    }
    assert sols[..|sols|] == sols;
    res := Ok((uttLang, todo));
  }

  /** The loop raises exactly when some solution is malformed, and then
      before anything is replayed; otherwise the work list holds every
      solution's data, in order, each a multiple of 4 long. */
  lemma {:induction false} TrainTodoSpec(sols: seq<TrainSolution>)
    ensures TrainTodo(sols).Ok? <==> forall i :: 0 <= i < |sols| ==> GoodTrain(sols[i])
    ensures TrainTodo(sols).Ok? ==>
      var todo := TrainTodo(sols).value.1;
      |todo| == |sols| &&
      (forall i :: 0 <= i < |sols| ==> todo[i] == sols[i].1.l && |todo[i]| % 4 == 0)
    ensures TrainTodo(sols).Err? ==> TrainTodo(sols).error in {NoName, NoList, TrainDataLength}
  {
    if |sols| > 0 {
      var n := |sols| - 1;
      TrainTodoSpec(sols[..n]);
      assert forall i :: 0 <= i < n ==> sols[..n][i] == sols[i];
    }
  }

  /** The language each work-list entry's TrainingData rows are stored
      under, as written: the one left in `utt_lang` (ai_kernal.py:385, 413,
      459), whatever solution the entry came from. */
  function RecordedLangs(sols: seq<TrainSolution>): (langs: seq<string>)
    requires TrainTodo(sols).Ok?
    ensures |langs| == |TrainTodo(sols).value.1|
  {
    var (lang, todo) := TrainTodo(sols).value;
    seq(|todo|, i requires 0 <= i < |todo| => if lang.Some? then lang.value else "")
  }

  /** Two solutions in different languages: the first one's rows are stored
      under the second one's language. */
  lemma RecordedLangsLost()
    ensures var sols := [(Predicate("en", []), ListLiteral([])), (Predicate("de", []), ListLiteral([]))];
      TrainTodo(sols).Ok? && RecordedLangs(sols)[0] == "de" && sols[0].0.name == "en"
  {
    var en := (Predicate("en", []), ListLiteral([]));
    var de := (Predicate("de", []), ListLiteral([]));
    var sols := [en, de];
    var one := [en];
    var none: seq<seq<Term>> := [];
    var first: seq<seq<Term>> := [[]];
    assert one[..|one| - 1] == [] && one[|one| - 1] == en;
    assert NameOf(en.0) == Ok("en") && ListOf(en.1) == Ok([]);
    assert none + [[]] == first;
    assert TrainTodo(one) == Ok((Some("en"), first));
    assert sols[..|sols| - 1] == one && sols[|sols| - 1] == de;
    assert NameOf(de.0) == Ok("de") && ListOf(de.1) == Ok([]);
    assert TrainTodo(sols) == Ok((Some("de"), first + [[]]));
  }

  /** The collection loop as evidently intended: each work-list entry keeps
      the language of its own solution. */
  function TrainTodoTagged(sols: seq<TrainSolution>): Result<seq<(string, seq<Term>)>, KError>
  {
    if |sols| == 0 then Ok([])
    else
      match TrainTodoTagged(sols[..|sols| - 1])
      case Err(e) => Err(e)
      case Ok(acc) =>
        var sol := sols[|sols| - 1];
        match NameOf(sol.0)
        case Err(e) => Err(e)
        case Ok(lang) =>
          match ListOf(sol.1)
          case Err(e) => Err(e)
          case Ok(data) =>
            if |data| % 4 != 0 then Err(TrainDataLength) else Ok(acc + [(lang, data)])
  }

  /** With each entry tagged, every entry carries its own solution's
      language and data, and the checks are those of the loop as written. */
  lemma {:induction false} TrainTodoTaggedSpec(sols: seq<TrainSolution>)
    ensures TrainTodoTagged(sols).Ok? <==> TrainTodo(sols).Ok?
    ensures TrainTodoTagged(sols).Ok? ==>
      var todo := TrainTodoTagged(sols).value;
      |todo| == |sols| &&
      (forall i :: 0 <= i < |sols| ==>
        GoodTrain(sols[i]) && todo[i] == (sols[i].0.name, sols[i].1.l) && |todo[i].1| % 4 == 0)
  {
    TrainTodoSpec(sols);
    if |sols| > 0 {
      var n := |sols| - 1;
      TrainTodoTaggedSpec(sols[..n]);
      assert forall i :: 0 <= i < n ==> sols[..n][i] == sols[i];
    }
  }

  /** The first round of a test: its preparation goals, language, input,
      expected output and expected actions. */
  datatype TestStart = TestStart(prep: seq<Term>, lang: string, testIn: string, testOut: string, actions: seq<Term>)

  /** The start of one test of `test_module`: `PREP` and `DATA` must be
      lists, the data a multiple of 3 long (input, output, actions per
      round), and the first round is read from it. An empty data list passes
      the length check and then raises on `data[0]`. */
  function TestFirstRound(lang: Term, prep: Term, data: Term): Result<TestStart, KError>
  {
    match ListOf(prep)
    case Err(e) => Err(e)
    case Ok(p) =>
      match ListOf(data)
      case Err(e) => Err(e)
      case Ok(d) =>
        if |d| % 3 != 0 then Err(TestDataLength)
        else match NameOf(lang)
        case Err(e) => Err(e)
        case Ok(l) =>
          if |d| == 0 then Err(IndexOutOfRange)
          else match StrOf(d[0])
          case Err(e) => Err(e)
          case Ok(tin) =>
            match StrOf(d[1])
            case Err(e) => Err(e)
            case Ok(tout) =>
              match ListOf(d[2])
              case Err(e) => Err(e)
              case Ok(acts) => Ok(TestStart(p, l, tin, tout, acts))
  }

  /** A test starts only with data of at least one whole round, and its
      first round is the first three data terms; a length that is not a
      multiple of 3 is reported as such, and an empty list as an index
      error. */
  lemma TestFirstRoundSpec(lang: Term, prep: Term, data: Term)
    ensures TestFirstRound(lang, prep, data).Ok? ==>
      data.ListLiteral? && |data.l| % 3 == 0 && |data.l| >= 3 &&
      TestFirstRound(lang, prep, data).value ==
        TestStart(prep.l, lang.name, data.l[0].s, data.l[1].s, data.l[2].l)
    ensures prep.ListLiteral? && data.ListLiteral? && |data.l| % 3 != 0 ==>
      TestFirstRound(lang, prep, data) == Err(TestDataLength)
    ensures prep.ListLiteral? && data == ListLiteral([]) && lang.Predicate? ==>
      TestFirstRound(lang, prep, data) == Err(IndexOutOfRange)
  {
  }
}
