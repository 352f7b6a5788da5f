/** `AIKernal._compute_net_input` (ai_kernal.py:506-548): the network input
    for the current interaction state (IAS) and up to two earlier ones. Each
    round reads the `ias(Cur, K, V)` facts of one IAS and puts a block in
    front of the context built so far: the IAS's keys, greatest first, each
    followed by its value, then its tokens in order. The Prolog search that
    finds the facts is a parameter of the model. */
module NetInput {
  import opened Wrappers
  import opened Text
  import opened Terms

  const NumContextRounds: nat := 3

  /** `_CONTEXT_IGNORE_IAS_KEYS` (ai_kernal.py:483). */
  const IgnoreKeys: set<string> := {"user", "utterance", "uttLang", "tokens", "currentTime", "prevIAS", "action"}

  /** An element of the context list: a Python string (a key or a token) or
      a Prolog term (a value). */
  datatype Item = Str(s: string) | Val(t: Term)

  /** The IAS a round looks at: the term given by the caller, then the
      string read from the previous round's `prevIAS` fact. */
  datatype Ias = IasTerm(t: Term) | IasName(n: string)

  /** `search_predicate('ias', [cur_ias, 'K', 'V'])`: the `(K, V)` bindings
      in the order the search returns them. */
  type Search = Ias -> seq<(Term, Term)>

  /** What one round collects: `prev_ias`, `tokens` and the dictionary `d`. */
  datatype Facts = Facts(prev: Option<string>, tokens: Option<seq<Term>>, d: map<string, Term>)

  /** One turn of the fact loop (ai_kernal.py:519-536). */
  function ScanStep(f: Facts, kv: (Term, Term)): Result<Facts, KError>
  {
    var (k, v) := kv;
    if !k.Predicate? then Ok(f)
    else if k.name == "prevIAS" then
      (match StrOf(v) case Err(e) => Err(e) case Ok(s) => Ok(f.(prev := Some(s))))
    else if k.name == "tokens" then
      (match ListOf(v) case Err(e) => Err(e) case Ok(l) => Ok(f.(tokens := Some(l))))
    else if k.name in IgnoreKeys then Ok(f)
    else Ok(f.(d := f.d[k.name := v]))
  }

  /** The whole fact loop of one round. */
  function Scan(s4s: seq<(Term, Term)>): Result<Facts, KError>
  {
    if |s4s| == 0 then Ok(Facts(None, None, map[]))
    else
      match Scan(s4s[..|s4s| - 1])
      case Err(e) => Err(e)
      case Ok(f) => ScanStep(f, s4s[|s4s| - 1])
  }

  lemma {:induction false} ScanStops(s4s: seq<(Term, Term)>, k: nat)
    requires k <= |s4s| && Scan(s4s[..k]).Err?
    ensures Scan(s4s) == Scan(s4s[..k])
    decreases |s4s| - k
  {
    if k == |s4s| {
      assert s4s[..k] == s4s;
    } else {
      assert s4s[..k + 1][..k] == s4s[..k];
      ScanStops(s4s, k + 1);
    }
  }

  /** The fact loop as written. */
  method ScanRound(s4s: seq<(Term, Term)>) returns (res: Result<Facts, KError>)
    ensures res == Scan(s4s)
  {
    var prevIas: Option<string> := None;
    var tokens: Option<seq<Term>> := None;
    var d: map<string, Term> := map[];
    for i := 0 to |s4s|
      invariant Scan(s4s[..i]) == Ok(Facts(prevIas, tokens, d))
    {
      assert s4s[..i + 1][..i] == s4s[..i];
      var (k, v) := s4s[i];
      if !k.Predicate? {
        continue;
      }
      if k.name == "prevIAS" {
        if !v.StringLiteral? {
          ScanStops(s4s, i + 1);
          return Err(NoString);
        }
        prevIas := Some(v.s);
      }
      if k.name == "tokens" {
        if !v.ListLiteral? {
          ScanStops(s4s, i + 1);
          return Err(NoList);
        }
        tokens := Some(v.l);
      }
      if k.name in IgnoreKeys {
        continue;
      }
      d := d[k.name := v];
    }
    assert s4s[..|s4s|] == s4s;
    res := Ok(Facts(prevIas, tokens, d));
  }

  /** `k` is a predicate key named `name` that the dictionary keeps. */
  predicate KeptKey(k: Term, name: string)
  {
    k.Predicate? && k.name == name && name !in IgnoreKeys
  }

  /** The dictionary of a round holds exactly the non-ignored predicate
      keys, each with the value of its last fact: a later duplicate
      overwrites an earlier one. */
  lemma {:induction false} ScanDict(s4s: seq<(Term, Term)>, name: string)
    requires Scan(s4s).Ok?
    ensures name in Scan(s4s).value.d ==> name !in IgnoreKeys
    ensures name in Scan(s4s).value.d <==> exists i :: 0 <= i < |s4s| && KeptKey(s4s[i].0, name)
    ensures name in Scan(s4s).value.d ==>
      exists i :: 0 <= i < |s4s| && KeptKey(s4s[i].0, name) && Scan(s4s).value.d[name] == s4s[i].1 &&
        forall j :: i < j < |s4s| ==> !KeptKey(s4s[j].0, name)
  {
    if |s4s| > 0 {
      var n := |s4s| - 1;
      var pre := s4s[..n];
      ScanDict(pre, name);
      assert forall i :: 0 <= i < n ==> pre[i] == s4s[i];
      if KeptKey(s4s[n].0, name) {
        assert Scan(s4s).value.d[name] == s4s[n].1;
      } else {
        assert Scan(s4s).value.d == Scan(pre).value.d || s4s[n].0.name != name;
        if name in Scan(s4s).value.d {
          var i :| 0 <= i < n && KeptKey(pre[i].0, name) && Scan(pre).value.d[name] == pre[i].1 &&
            forall j :: i < j < n ==> !KeptKey(pre[j].0, name);
          assert KeptKey(s4s[i].0, name);
        }
      }
    }
  }

  /** `prev_ias` and `tokens` come from the last fact of their kind. */
  lemma {:induction false} ScanLinks(s4s: seq<(Term, Term)>)
    requires Scan(s4s).Ok?
    ensures Scan(s4s).value.prev.Some? ==>
      exists i :: 0 <= i < |s4s| && s4s[i].0.Predicate? && s4s[i].0.name == "prevIAS" &&
        s4s[i].1 == StringLiteral(Scan(s4s).value.prev.value)
    ensures Scan(s4s).value.tokens.None? ==>
      forall i :: 0 <= i < |s4s| ==> !(s4s[i].0.Predicate? && s4s[i].0.name == "tokens")
  {
    if |s4s| > 0 {
      var n := |s4s| - 1;
      var pre := s4s[..n];
      ScanLinks(pre);
      assert forall i :: 0 <= i < n ==> pre[i] == s4s[i];
    }
  }

  // The keys of a round in `sorted` order, inserted one by one at the
  // front: greatest first.

  predicate StrictlyDescending(r: seq<string>)
  {
    forall i, j :: 0 <= i < j < |r| ==> LexLess(r[j], r[i])
  }

  lemma {:induction false} MaxExists(ks: set<string>)
    requires ks != {}
    ensures exists m :: m in ks && forall y :: y in ks && y != m ==> LexLess(y, m)
    decreases |ks|
  {
    var x :| x in ks;
    if ks - {x} == {} {
      assert forall y :: y in ks && y != x ==> y in ks - {x};
      assert x in ks && forall y :: y in ks && y != x ==> LexLess(y, x);
    } else {
      MaxExists(ks - {x});
      var m :| m in ks - {x} && forall y :: y in ks - {x} && y != m ==> LexLess(y, m);
      if LexLess(x, m) {
        assert forall y :: y in ks && y != m ==> LexLess(y, m);
      } else {
        LexLessTotal(x, m);
        forall y | y in ks && y != x
          ensures LexLess(y, x)
        {
          if y != m {
            LexLessTransitive(y, m, x);
          }
        }
      }
    }
  }

  /** The keys of `ks`, greatest first. */
  ghost function Descending(ks: set<string>): (r: seq<string>)
    ensures StrictlyDescending(r)
    ensures forall x :: x in r <==> x in ks
    ensures forall i :: 0 <= i < |r| ==> r[i] in ks
    ensures |r| == |ks|
    decreases |ks|
  {
    if ks == {} then []
    else
      MaxExists(ks);
      var m :| m in ks && forall y :: y in ks && y != m ==> LexLess(y, m);
      var rest := Descending(ks - {m});
      ConsDescending(m, rest);
      [m] + rest
  }

  lemma ConsDescending(m: string, rest: seq<string>)
    requires StrictlyDescending(rest)
    requires forall i :: 0 <= i < |rest| ==> LexLess(rest[i], m)
    ensures StrictlyDescending([m] + rest)
  {
    var r := [m] + rest;
    forall i, j | 0 <= i < j < |r|
      ensures LexLess(r[j], r[i])
    {
      assert r[j] == rest[j - 1];
      if i > 0 {
        assert r[i] == rest[i - 1];
      }
    }
  }

  /** A key greater than all others comes first. */
  lemma DescendingAddTop(s: set<string>, m: string)
    requires m !in s && forall x :: x in s ==> LexLess(x, m)
    ensures Descending(s + {m}) == [m] + Descending(s)
  {
    var ks := s + {m};
    var r := Descending(ks);
    var top := r[0];
    assert top in ks;
    if top != m {
      assert LexLess(top, m);
      assert m in r;
      var j :| 0 <= j < |r| && r[j] == m;
      assert j != 0;
      assert LexLess(m, top);
      LexLessAsymmetric(top, m);
    }
    assert ks - {m} == s;
  }

  /** The `k, v` pairs of the keys `keys`, in that order. */
  function Pairs(keys: seq<string>, d: map<string, Term>): (ps: seq<Item>)
    requires forall k :: k in keys ==> k in d
    ensures |ps| == 2 * |keys|
  {
    if |keys| == 0 then [] else [Str(keys[0]), Val(d[keys[0]])] + Pairs(keys[1..], d)
  }

  lemma {:induction false} PairsAt(keys: seq<string>, d: map<string, Term>, i: nat)
    requires forall k :: k in keys ==> k in d
    requires i < |keys|
    ensures Pairs(keys, d)[2 * i] == Str(keys[i]) && Pairs(keys, d)[2 * i + 1] == Val(d[keys[i]])
  {
    if i > 0 {
      PairsAt(keys[1..], d, i - 1);
    }
  }

  /** `t.s` of each token, in order. */
  function TokenItems(toks: seq<Term>): (r: Result<seq<Item>, KError>)
    ensures r.Ok? <==> forall i :: 0 <= i < |toks| ==> toks[i].StringLiteral?
    ensures r.Err? ==> r.error == NoString
    ensures r.Ok? ==> |r.value| == |toks| && forall i :: 0 <= i < |toks| ==> r.value[i] == Str(toks[i].s)
  {
    if |toks| == 0 then Ok([])
    else
      match StrOf(toks[0])
      case Err(e) => Err(e)
      case Ok(s) =>
        match TokenItems(toks[1..])
        case Err(e) => Err(e)
        case Ok(rest) => Ok([Str(s)] + rest)
  }

  /** The block one round puts in front of the context. A round without a
      `tokens` fact raises (`reversed(None)`). */
  ghost function BlockOf(f: Facts): Result<seq<Item>, KError>
  {
    if f.tokens.None? then Err(NoTokens)
    else
      match TokenItems(f.tokens.value)
      case Err(e) => Err(e)
      case Ok(ts) => Ok(Pairs(Descending(f.d.Keys), f.d) + ts)
  }

  /** A round's block: its keys, strictly descending and each exactly once,
      each followed by its value, then its tokens in their order. */
  lemma BlockLayout(f: Facts, i: nat, j: nat)
    requires BlockOf(f).Ok?
    ensures |BlockOf(f).value| == 2 * |f.d| + |f.tokens.value|
    ensures i < |f.d| ==>
      var k := Descending(f.d.Keys)[i];
      k in f.d && BlockOf(f).value[2 * i] == Str(k) && BlockOf(f).value[2 * i + 1] == Val(f.d[k]) &&
      (i + 1 < |f.d| ==> LexLess(Descending(f.d.Keys)[i + 1], k))
    ensures j < |f.tokens.value| ==> BlockOf(f).value[2 * |f.d| + j] == Str(f.tokens.value[j].s)
  {
    var keys := Descending(f.d.Keys);
    var ts := TokenItems(f.tokens.value).value;
    var ps := Pairs(keys, f.d);
    var b := BlockOf(f).value;
    assert b == ps + ts;
    assert |f.d.Keys| == |f.d| == |keys|;
    if i < |f.d| {
      PairsAt(keys, f.d, i);
      assert b[2 * i] == ps[2 * i] && b[2 * i + 1] == ps[2 * i + 1];
    }
    if j < |f.tokens.value| {
      assert b[2 * |f.d| + j] == ts[j];
    }
  }

  /** The context of `n` more rounds from `cur`, without what earlier
      rounds put after it. The loop stops after `n` rounds or at an IAS
      without `prevIAS` (or with an empty one). */
  ghost function NetInputFrom(search: Search, cur: Ias, n: nat): Result<seq<Item>, KError>
    decreases n
  {
    if n == 0 then Ok([])
    else
      match Scan(search(cur))
      case Err(e) => Err(e)
      case Ok(f) =>
        match BlockOf(f)
        case Err(e) => Err(e)
        case Ok(b) =>
          if f.prev.None? || f.prev.value == "" then Ok(b)
          else
            match NetInputFrom(search, IasName(f.prev.value), n - 1)
            case Err(e) => Err(e)
            case Ok(c) => Ok(c + b)
  }

  ghost function NetInput(search: Search, cur: Ias): Result<seq<Item>, KError>
  {
    NetInputFrom(search, cur, NumContextRounds)
  }

  /** `res` with `ctx` after it. */
  function Then(res: Result<seq<Item>, KError>, ctx: seq<Item>): Result<seq<Item>, KError>
  {
    match res
    case Err(e) => Err(e)
    case Ok(c) => Ok(c + ctx)
  }

  /** The least key of a non-empty set. */
  method MinOf(ks: set<string>) returns (m: string)
    requires ks != {}
    ensures m in ks && forall y :: y in ks && y != m ==> LexLess(m, y)
  {
    m :| m in ks;
    var todo := ks - {m};
    while todo != {}
      invariant todo <= ks && m in ks && m !in todo
      invariant forall y :: y in ks - todo && y != m ==> LexLess(m, y)
      decreases |todo|
    {
      var y :| y in todo;
      if LexLess(y, m) {
        forall z | z in ks - todo && z != y
          ensures LexLess(y, z)
        {
          if z != m {
            LexLessTransitive(y, m, z);
          }
        }
        m := y;
      } else {
        LexLessTotal(y, m);
      }
      todo := todo - {y};
    }
  }

  /** `for t in reversed(tokens): context.insert(0, t.s)`. */
  method PushTokens(toks: seq<Term>, context: seq<Item>) returns (res: Result<seq<Item>, KError>)
    ensures res == Then(TokenItems(toks), context)
  {
    var ctx := context;
    var j := |toks|;
    assert toks[j..] == [];
    while j > 0
      invariant 0 <= j <= |toks|
      invariant TokenItems(toks[j..]).Ok? && ctx == TokenItems(toks[j..]).value + context
    {
      j := j - 1;
      assert toks[j..][1..] == toks[j + 1..];
      if !toks[j].StringLiteral? {
        return Err(NoString);
      }
      ctx := [Str(toks[j].s)] + ctx;
    }
    assert toks[0..] == toks;
    res := Ok(ctx);
  }

  /** `for k in sorted(d): context.insert(0, d[k]); context.insert(0, k)`:
      the keys are taken least first, each pair going in front. */
  method PushPairs(d: map<string, Term>, context: seq<Item>) returns (ctx: seq<Item>)
    ensures ctx == Pairs(Descending(d.Keys), d) + context
  {
    ctx := context;
    var rest := d.Keys;
    ghost var done: set<string> := {};
    assert Descending(done) == [];
    while rest != {}
      invariant done <= d.Keys && rest == d.Keys - done
      invariant forall x, y :: x in done && y in rest ==> LexLess(x, y)
      invariant ctx == Pairs(Descending(done), d) + context
      decreases |rest|
    {
      var k := MinOf(rest);
      PairsTop(done, k, d, context);
      OrderKept(d.Keys, done, rest, k);
      ctx := [Str(k), Val(d[k])] + ctx;
      rest := rest - {k};
      done := done + {k};
    }
    assert done == d.Keys;
  }

  /** Moving the least remaining key to the keys done keeps every key done
      below every key remaining, and the two still split the keys. */
  lemma OrderKept(keys: set<string>, done: set<string>, rest: set<string>, k: string)
    requires done <= keys && rest == keys - done
    requires forall x, y :: x in done && y in rest ==> LexLess(x, y)
    requires k in rest && forall y :: y in rest && y != k ==> LexLess(k, y)
    ensures done + {k} <= keys && rest - {k} == keys - (done + {k}) && |rest - {k}| < |rest|
    ensures forall x :: x in done ==> LexLess(x, k)
    ensures forall x, y :: x in done + {k} && y in rest - {k} ==> LexLess(x, y)
  {
  }

  /** Putting the pair of a key greater than all keys done so far in front
      gives the pairs of the larger set. */
  lemma PairsTop(done: set<string>, k: string, d: map<string, Term>, context: seq<Item>)
    requires k !in done && k in d && done <= d.Keys
    requires forall x :: x in done ==> LexLess(x, k)
    ensures [Str(k), Val(d[k])] + (Pairs(Descending(done), d) + context) ==
      Pairs(Descending(done + {k}), d) + context
  {
    DescendingAddTop(done, k);
    var top := Descending(done + {k});
    assert top[0] == k && top[1..] == Descending(done);
  }

  lemma ThenThen(r: Result<seq<Item>, KError>, b: seq<Item>, ctx: seq<Item>)
    ensures Then(Then(r, b), ctx) == Then(r, b + ctx)
  {
    if r.Ok? {
      assert r.value + b + ctx == r.value + (b + ctx);
    }
  }

  /** `_compute_net_input` as written: up to `NUM_CONTEXT_ROUNDS` rounds,
      each following the previous round's `prevIAS`. */
  method ComputeNetInput(search: Search, cur0: Ias) returns (res: Result<seq<Item>, KError>)
    ensures res == NetInput(search, cur0)
  {
    var context: seq<Item> := [];
    var cur := cur0;
    ThenEmpty(NetInput(search, cur0));
    var r := 0;
    while r < NumContextRounds
      invariant 0 <= r <= NumContextRounds
      invariant Then(NetInputFrom(search, cur, NumContextRounds - r), context) == NetInput(search, cur0)
    {
      var out, next := ContextRound(search, cur, NumContextRounds - r, context);
      if next.None? {
        return out;
      }
      cur, context := next.value, out.value;
      r := r + 1;
    }
    ThenEmpty(Ok(context));
    res := Ok(context);
  }

  /** One turn of the loop of `_compute_net_input`: read the round's facts,
      put its block in front of the context, and say which IAS comes next,
      if the loop goes on. */
  method ContextRound(search: Search, cur: Ias, ghost n: nat, context: seq<Item>)
    returns (res: Result<seq<Item>, KError>, next: Option<Ias>)
    requires n > 0
    ensures next.None? ==> res == Then(NetInputFrom(search, cur, n), context)
    ensures next.Some? ==> (res.Ok? &&
      Then(NetInputFrom(search, cur, n), context) == Then(NetInputFrom(search, next.value, n - 1), res.value))
  {
    NetInputRound(search, cur, n, context);
    var facts := ScanRound(search(cur));
    if facts.Err? {
      return Err(facts.error), None;
    }
    var f := facts.value;
    res := PushBlock(f, context);
    if res.Err? || f.prev.None? || f.prev.value == "" {
      return res, None;
    }
    next := Some(IasName(f.prev.value));
  }

  lemma ThenEmpty(r: Result<seq<Item>, KError>)
    ensures Then(r, []) == r
    ensures r.Ok? ==> Then(Ok([]), r.value) == r
  {
    if r.Ok? {
      assert r.value + [] == r.value && [] + r.value == r.value;
    }
  }

  /** One round of the loop body: the tokens, then the pairs, go in front
      of the context. */
  method PushBlock(f: Facts, context: seq<Item>) returns (res: Result<seq<Item>, KError>)
    ensures res == Then(BlockOf(f), context)
  {
    if f.tokens.None? {
      return Err(NoTokens);
    }
    var withTokens := PushTokens(f.tokens.value, context);
    if withTokens.Err? {
      return Err(withTokens.error);
    }
    var block := PushPairs(f.d, withTokens.value);
    ghost var ts := TokenItems(f.tokens.value).value;
    assert Pairs(Descending(f.d.Keys), f.d) + (ts + context) == Pairs(Descending(f.d.Keys), f.d) + ts + context;
    res := Ok(block);
  }

  /** One round of the loop, as the specification unfolds it. */
  lemma NetInputRound(search: Search, cur: Ias, n: nat, context: seq<Item>)
    requires n > 0
    ensures Scan(search(cur)).Err? ==> Then(NetInputFrom(search, cur, n), context) == Err(Scan(search(cur)).error)
    ensures Scan(search(cur)).Ok? ==>
      var f := Scan(search(cur)).value;
      var block := Then(BlockOf(f), context);
      if block.Err? || f.prev.None? || f.prev.value == "" then
        Then(NetInputFrom(search, cur, n), context) == block
      else
        Then(NetInputFrom(search, cur, n), context) ==
          Then(NetInputFrom(search, IasName(f.prev.value), n - 1), block.value)
  {
    if Scan(search(cur)).Ok? {
      var f := Scan(search(cur)).value;
      if BlockOf(f).Ok? && f.prev.Some? && f.prev.value != "" {
        ThenThen(NetInputFrom(search, IasName(f.prev.value), n - 1), BlockOf(f).value, context);
      }
    }
  }

  /** The IAS nodes a run reads, in order: one per round. */
  ghost function Visited(search: Search, cur: Ias, n: nat): (vs: seq<Ias>)
    ensures |vs| <= n
    ensures n > 0 ==> |vs| > 0 && vs[0] == cur
    decreases n
  {
    if n == 0 then []
    else
      match Scan(search(cur))
      case Err(_) => [cur]
      case Ok(f) =>
        if BlockOf(f).Err? || f.prev.None? || f.prev.value == "" then [cur]
        else [cur] + Visited(search, IasName(f.prev.value), n - 1)
  }

  /** Only the facts of the visited nodes, at most `NUM_CONTEXT_ROUNDS` of
      them, play a part: two searches that agree on those give the same
      context. */
  lemma {:induction false} NetInputReads(s1: Search, s2: Search, cur: Ias, n: nat)
    requires forall v :: v in Visited(s1, cur, n) ==> s1(v) == s2(v)
    ensures NetInputFrom(s1, cur, n) == NetInputFrom(s2, cur, n)
    ensures Visited(s1, cur, n) == Visited(s2, cur, n)
    decreases n
  {
    if n > 0 {
      assert s1(cur) == s2(cur);
      var sc := Scan(s1(cur));
      if sc.Ok? {
        var f := sc.value;
        if BlockOf(f).Ok? && f.prev.Some? && f.prev.value != "" {
          var next := IasName(f.prev.value);
          assert forall v :: v in Visited(s1, next, n - 1) ==> v in Visited(s1, cur, n);
          NetInputReads(s1, s2, next, n - 1);
        }
      }
    }
  }

  /** The block of the first IAS ends the context: every later round's
      block goes in front of it. */
  lemma NetInputEndsWithFirst(search: Search, cur: Ias, n: nat)
    requires n > 0 && NetInputFrom(search, cur, n).Ok?
    ensures Scan(search(cur)).Ok? && BlockOf(Scan(search(cur)).value).Ok?
    ensures var b := BlockOf(Scan(search(cur)).value).value;
      var c := NetInputFrom(search, cur, n).value;
      |b| <= |c| && c[|c| - |b|..] == b
  {
    var b := BlockOf(Scan(search(cur)).value).value;
    var c := NetInputFrom(search, cur, n).value;
    if |c| != |b| {
      var f := Scan(search(cur)).value;
      var c' := NetInputFrom(search, IasName(f.prev.value), n - 1).value;
      assert c == c' + b;
      assert c[|c| - |b|..] == b;
    }
  }

  /** An IAS without a usable `prevIAS` is the only one read. */
  lemma NetInputAlone(search: Search, cur: Ias, n: nat)
    requires n > 0 && Scan(search(cur)).Ok?
    requires Scan(search(cur)).value.prev.None? || Scan(search(cur)).value.prev.value == ""
    ensures NetInputFrom(search, cur, n) == BlockOf(Scan(search(cur)).value)
    ensures Visited(search, cur, n) == [cur]
  {
  }
}
