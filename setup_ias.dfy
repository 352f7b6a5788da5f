/** `AIKernal._setup_ias` (ai_kernal.py:566-607): a new interaction state
    (IAS) for one utterance. It is a fresh `ias…` symbol whose facts are
    appended to a copy of the caller's assert overlay. When the caller
    names no previous IAS, the user's IAS with the greatest name (names
    compare as strings, so `ias9` beats `ias10`) is looked up. The symbol
    generator, the clock and the Prolog search for the user's IAS symbols
    are parameters of the model. */
module SetupIas {
  import opened Wrappers
  import opened Text
  import opened Terms
  import NetInput

  /** The running maximum of the lookup loop (ai_kernal.py:576-584): the
      first solution is taken as it is; each later one replaces it when
      its name is greater. Comparing names reads `.name` of both. */
  function SelectPrev(cands: seq<Term>): Result<Option<Term>, KError>
  {
    if |cands| == 0 then Ok(None)
    else
      match SelectPrev(cands[..|cands| - 1])
      case Err(e) => Err(e)
      case Ok(None) => Ok(Some(cands[|cands| - 1]))
      case Ok(Some(p)) =>
        var ias := cands[|cands| - 1];
        match NameOf(ias)
        case Err(e) => Err(e)
        case Ok(n) =>
          match NameOf(p)
          case Err(e) => Err(e)
          case Ok(pn) => if LexLess(pn, n) then Ok(Some(ias)) else Ok(Some(p))
  }

  lemma {:induction false} SelectPrevStops(cands: seq<Term>, k: nat)
    requires k <= |cands| && SelectPrev(cands[..k]).Err?
    ensures SelectPrev(cands) == SelectPrev(cands[..k])
    decreases |cands| - k
  {
    if k == |cands| {
      assert cands[..k] == cands;
    } else {
      assert cands[..k + 1][..k] == cands[..k];
      SelectPrevStops(cands, k + 1);
    }
  }

  /** The lookup loop as written. */
  method FindPrev(cands: seq<Term>) returns (res: Result<Option<Term>, KError>)
    ensures res == SelectPrev(cands)
  {
    var prevIas: Option<Term> := None;
    for i := 0 to |cands|
      invariant SelectPrev(cands[..i]) == Ok(prevIas)
    {
      assert cands[..i + 1][..i] == cands[..i];
      var ias := cands[i];
      if prevIas.None? {
        prevIas := Some(ias);
        continue;
      }
      if !ias.Predicate? || !prevIas.value.Predicate? {
        SelectPrevStops(cands, i + 1);
        return Err(NoName);
      }
      if LexLess(prevIas.value.name, ias.name) {
        prevIas := Some(ias);
      }
    }
    assert cands[..|cands|] == cands;
    res := Ok(prevIas);
  }

  /** The lookup fails exactly when there are two candidates or more and
      one of them is not a predicate; otherwise it finds nothing only when
      there is no candidate, and what it finds is one of them. */
  lemma {:induction false} SelectPrevDefined(cands: seq<Term>)
    ensures SelectPrev(cands).Err? <==>
      |cands| >= 2 && exists i :: 0 <= i < |cands| && !cands[i].Predicate?
    ensures SelectPrev(cands).Ok? ==>
      (SelectPrev(cands).value.None? <==> |cands| == 0) &&
      (SelectPrev(cands).value.Some? ==> SelectPrev(cands).value.value in cands)
  {
    if |cands| > 0 {
      var n := |cands| - 1;
      var init := cands[..n];
      SelectPrevDefined(init);
      assert forall i :: 0 <= i < n ==> init[i] == cands[i];
      if n == 1 {
        assert init[0] == cands[0];
      }
      if SelectPrev(init).Ok? && SelectPrev(init).value.Some? {
        assert SelectPrev(init).value.value in cands;
      }
    }
  }

  /** Candidate `k` has the greatest name, and every candidate before it
      a smaller one. */
  predicate FirstGreatest(cands: seq<Term>, k: int)
    requires forall i :: 0 <= i < |cands| ==> cands[i].Predicate?
  {
    0 <= k < |cands| &&
    (forall j :: 0 <= j < k ==> LexLess(cands[j].name, cands[k].name)) &&
    (forall j :: k < j < |cands| ==> !LexLess(cands[k].name, cands[j].name))
  }

  lemma GreatestSnoc(cands: seq<Term>, k: nat)
    requires |cands| > 1 && forall i :: 0 <= i < |cands| ==> cands[i].Predicate?
    requires FirstGreatest(cands[..|cands| - 1], k)
    ensures var n := |cands| - 1;
      if LexLess(cands[k].name, cands[n].name) then FirstGreatest(cands, n) else FirstGreatest(cands, k)
  {
    var n := |cands| - 1;
    assert forall i :: 0 <= i < n ==> cands[..n][i] == cands[i];
    var q := cands[k].name;
    var last := cands[n].name;
    if LexLess(q, last) {
      forall j | 0 <= j < n
        ensures LexLess(cands[j].name, last)
      {
        if j < k {
          LexLessTransitive(cands[j].name, q, last);
        } else if cands[j].name != q {
          LexLessTotal(q, cands[j].name);
          LexLessTransitive(cands[j].name, q, last);
        }
      }
    }
  }

  /** Among predicates, the lookup finds the one with the greatest name,
      the first of them when several share it. */
  lemma {:induction false} SelectPrevGreatest(cands: seq<Term>)
    requires |cands| > 0 && forall i :: 0 <= i < |cands| ==> cands[i].Predicate?
    ensures exists k :: FirstGreatest(cands, k) && SelectPrev(cands) == Ok(Some(cands[k]))
  {
    var n := |cands| - 1;
    var init := cands[..n];
    if n == 0 {
      assert init == [] && SelectPrev(init) == Ok(None);
      assert SelectPrev(cands) == Ok(Some(cands[0]));
      assert FirstGreatest(cands, 0);
    } else {
      SelectPrevGreatest(init);
      var k :| FirstGreatest(init, k) && SelectPrev(init) == Ok(Some(init[k]));
      assert init[k] == cands[k];
      GreatestSnoc(cands, k);
      if LexLess(cands[k].name, cands[n].name) {
        assert FirstGreatest(cands, n);
      } else {
        assert FirstGreatest(cands, k);
      }
    }
  }

  /** `Predicate('ias', [cur, Predicate(key), value])`, the head of each new
      clause (its source location is left out). */
  function IasFact(cur: Term, kv: (Term, Term)): Term
  {
    Predicate("ias", [cur, kv.0, kv.1])
  }

  /** The key/value pairs of the new IAS, in the order they are asserted:
      `user`, `uttLang`, `tokens`, then `currentTime` outside test mode and
      `prevIAS` when there is one. The utterance itself is not asserted. */
  function NewPairs(testMode: bool, userUri: string, uttLang: string, tokens: seq<Term>,
                    now: string, prev: Option<Term>): seq<(Term, Term)>
  {
    var base := [(Predicate("user", []), StringLiteral(userUri)),
                 (Predicate("uttLang", []), Predicate(uttLang, [])),
                 (Predicate("tokens", []), ListLiteral(tokens))];
    var timed := if testMode then base else base + [(Predicate("currentTime", []), StringLiteral(now))];
    if prev.Some? then timed + [(Predicate("prevIAS", []), prev.value)] else timed
  }

  function FactsOf(cur: Term, kvs: seq<(Term, Term)>): (fs: seq<Term>)
    ensures |fs| == |kvs| && forall i :: 0 <= i < |kvs| ==> fs[i] == IasFact(cur, kvs[i])
  {
    if |kvs| == 0 then [] else [IasFact(cur, kvs[0])] + FactsOf(cur, kvs[1..])
  }

  lemma FactsOfSnoc(cur: Term, kvs: seq<(Term, Term)>, kv: (Term, Term))
    ensures FactsOf(cur, kvs + [kv]) == FactsOf(cur, kvs) + [IasFact(cur, kv)]
  {
  }

  /** The overlay's clauses for `ias`, empty when it has none yet. */
  function IasOf(ovl: map<string, seq<Term>>): seq<Term>
  {
    if "ias" in ovl then ovl["ias"] else []
  }

  /** The previous IAS: the caller's, or else the user's IAS with the
      greatest name. */
  function PrevFor(prevIas: Option<Term>, userIas: seq<Term>): Result<Option<Term>, KError>
  {
    if prevIas.Some? then Ok(prevIas) else SelectPrev(userIas)
  }

  /** The `ias` clauses `_setup_ias` asserts about the new IAS, appended
      one by one to `ovl['ias']` (given here as `ias0`). */
  method AssertFacts(cur: Term, ias0: seq<Term>, testMode: bool, userUri: string, uttLang: string,
                     tokens: seq<Term>, now: string, prev: Option<Term>) returns (ias: seq<Term>)
    ensures ias == ias0 + FactsOf(cur, NewPairs(testMode, userUri, uttLang, tokens, now, prev))
  {
    ias := ias0;
    ghost var kvs: seq<(Term, Term)> := [];
    assert ias == ias0 + FactsOf(cur, kvs);
    var kv := (Predicate("user", []), StringLiteral(userUri));
    AppendFact(ias0, cur, ias, kvs, kv);
    ias, kvs := ias + [IasFact(cur, kv)], kvs + [kv];
    kv := (Predicate("uttLang", []), Predicate(uttLang, []));
    AppendFact(ias0, cur, ias, kvs, kv);
    ias, kvs := ias + [IasFact(cur, kv)], kvs + [kv];
    kv := (Predicate("tokens", []), ListLiteral(tokens));
    AppendFact(ias0, cur, ias, kvs, kv);
    ias, kvs := ias + [IasFact(cur, kv)], kvs + [kv];
    assert kvs == [(Predicate("user", []), StringLiteral(userUri)),
                   (Predicate("uttLang", []), Predicate(uttLang, [])),
                   (Predicate("tokens", []), ListLiteral(tokens))];
    if !testMode {
      kv := (Predicate("currentTime", []), StringLiteral(now));
      AppendFact(ias0, cur, ias, kvs, kv);
      ias, kvs := ias + [IasFact(cur, kv)], kvs + [kv];
    }
    if prev.Some? {
      kv := (Predicate("prevIAS", []), prev.value);
      AppendFact(ias0, cur, ias, kvs, kv);
      ias, kvs := ias + [IasFact(cur, kv)], kvs + [kv];
    }
  }

  /** One more fact appended keeps the list the facts of the pairs so far. */
  lemma AppendFact(ias0: seq<Term>, cur: Term, ias: seq<Term>, kvs: seq<(Term, Term)>, kv: (Term, Term))
    requires ias == ias0 + FactsOf(cur, kvs)
    ensures ias + [IasFact(cur, kv)] == ias0 + FactsOf(cur, kvs + [kv])
  {
    FactsOfSnoc(cur, kvs, kv);
  }

  /** `_setup_ias` as written. The overlay is a value here: `deepcopy`
      leaves the caller's overlay as it was, and the copy is updated. */
  method Setup(testMode: bool, userUri: string, uttLang: string, tokens: seq<Term>,
               prevIas: Option<Term>, prevOvl: map<string, seq<Term>>,
               gensym: string, now: string, userIas: seq<Term>)
    returns (res: Result<(Term, map<string, seq<Term>>), KError>)
    ensures PrevFor(prevIas, userIas).Err? ==> res == Err(PrevFor(prevIas, userIas).error)
    ensures PrevFor(prevIas, userIas).Ok? ==> res.Ok?
    ensures res.Ok? ==>
      var (cur, ovl) := res.value;
      cur == Predicate(gensym, []) &&
      ovl == prevOvl["ias" := IasOf(prevOvl) +
        FactsOf(cur, NewPairs(testMode, userUri, uttLang, tokens, now, PrevFor(prevIas, userIas).value))]
  {
    var cur := Predicate(gensym, []);
    var prev := prevIas;
    if prev.None? {
      var found := FindPrev(userIas);
      if found.Err? {
        return Err(found.error);
      }
      prev := found.value;
    }
    var ias := AssertFacts(cur, IasOf(prevOvl), testMode, userUri, uttLang, tokens, now, prev);
    var ovl := prevOvl["ias" := ias];
    res := Ok((cur, ovl));
  }

  /** Every new fact is about the new IAS; there are three of them, one
      more outside test mode and one more when there is a previous IAS. */
  lemma NewPairsShape(testMode: bool, userUri: string, uttLang: string, tokens: seq<Term>,
                      now: string, prev: Option<Term>, cur: Term)
    ensures var fs := FactsOf(cur, NewPairs(testMode, userUri, uttLang, tokens, now, prev));
      |fs| == 3 + (if testMode then 0 else 1) + (if prev.Some? then 1 else 0) &&
      (forall i :: 0 <= i < |fs| ==> fs[i].Predicate? && fs[i].name == "ias" && |fs[i].args| == 3 && fs[i].args[0] == cur) &&
      (prev.Some? ==> fs[|fs| - 1] == Predicate("ias", [cur, Predicate("prevIAS", []), prev.value]))
  {
  }

  /** What `_compute_net_input` reads back from a new IAS: every key it
      asserts is one the context ignores, so the IAS contributes its tokens
      and its `prevIAS` link and nothing else. The link is read with `.s`,
      so only a string-literal previous IAS can be followed. */
  lemma {:induction false} NewPairsScanned(testMode: bool, userUri: string, uttLang: string, tokens: seq<Term>,
                         now: string, prev: Option<Term>)
    ensures var sc := NetInput.Scan(NewPairs(testMode, userUri, uttLang, tokens, now, prev));
      (prev.None? || prev.value.StringLiteral? <==> sc.Ok?) &&
      (sc.Err? ==> sc.error == NoString) &&
      (sc.Ok? ==> sc.value == NetInput.Facts(if prev.Some? then Some(prev.value.s) else None, Some(tokens), map[]))
  {
    var first := [(Predicate("user", []), StringLiteral(userUri)),
                  (Predicate("uttLang", []), Predicate(uttLang, [])),
                  (Predicate("tokens", []), ListLiteral(tokens))];
    var timed := first + (if testMode then [] else [(Predicate("currentTime", []), StringLiteral(now))]);
    var all := NewPairs(testMode, userUri, uttLang, tokens, now, prev);
    assert first[..2][..1][..0] == [] && first[..2][..1] == first[..1];
    assert first[..2] == first[..1] + [first[1]] && first[..3] == first;
    assert NetInput.Scan(first[..1]) == Ok(NetInput.Facts(None, None, map[]));
    assert NetInput.Scan(first[..2]) == Ok(NetInput.Facts(None, None, map[]));
    assert NetInput.Scan(first) == Ok(NetInput.Facts(None, Some(tokens), map[]));
    if !testMode {
      assert timed[..|timed| - 1] == first;
    } else {
      assert timed == first;
    }
    assert NetInput.Scan(timed) == Ok(NetInput.Facts(None, Some(tokens), map[]));
    if prev.Some? {
      assert all[..|all| - 1] == timed;
    } else {
      assert all == timed;
    }
  }
}
