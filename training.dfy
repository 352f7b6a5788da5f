/** The rows `DataEngine` adds to its database session, and what one call of
    `generate_training_data` (zamiaai/data_engine.py:345-381) adds, written as
    functions of the state before the call. */
module Training {
  import opened Wrappers
  import opened Text
  import opened Macros
  import opened Keys
  import opened Expansion

  /** The authoring call a `dt`/`ts` row comes from: file name and line. */
  datatype Location = Location(file: string, line: int)

  /** The location of rows written before any `dt` or `ts`. */
  const UnknownLocation := Location("unknown", 0)

  /** A `model.Code` row. */
  datatype Code = Code(md5s: string, moduleName: Option<string>, code: string, fn: string)

  /** A `model.TrainingData` row. */
  datatype Sample = Sample(lang: string, moduleName: Option<string>, inp: string, md5s: string, loc: Location)

  /** A `model.NERData` row. Only its module matters here: no modelled
      operation adds one, and `clear` drops those of the module; its other
      columns are kept as plain strings. */
  datatype NerRow = NerRow(moduleName: Option<string>, fields: seq<string>)

  /** A `model.NamedMacro` row; the solution is kept as the variant itself
      rather than as its JSON text. */
  datatype NamedMacro = NamedMacro(lang: string, moduleName: Option<string>, name: string, soln: Variant)

  /** One normalised test round: tokenised input, tokenised response, and the
      actions as their JSON text. */
  datatype Round = Round(inp: string, resp: string, actions: string)

  /** A `model.TestCase` row. */
  datatype TestCase = TestCase(lang: string, moduleName: Option<string>, name: string, prep: Option<string>,
                               rounds: seq<Round>, loc: Location)

  /** What `generate_training_data` changes: the text fed to the shared MD5
      object since it was created, the Code and TrainingData rows, and
      `cnt_dt`. */
  datatype Db = Db(md5Fed: string, codes: seq<Code>, samples: seq<Sample>, cntDt: nat)

  /** `self.prefixes if self.prefixes else [u'']`. */
  function PrefixesOrEmpty(prefixes: seq<string>): (ps: seq<string>)
    ensures |ps| >= 1
    ensures |prefixes| > 0 ==> ps == prefixes
  {
    if |prefixes| > 0 then prefixes else [""]
  }

  /** One prefix glued to every input, in input order. */
  function Row(prefix: string, inps: seq<string>): seq<string>
  {
    seq(|inps|, j requires 0 <= j < |inps| => prefix + inps[j])
  }

  /** One text more of a row, after the texts `done`. */
  lemma RowNext(done: seq<string>, prefix: string, inps: seq<string>, b: nat)
    requires b < |inps|
    ensures done + Row(prefix, inps)[..b + 1] == done + Row(prefix, inps)[..b] + [prefix + inps[b]]
  {
    assert Row(prefix, inps)[..b + 1] == Row(prefix, inps)[..b] + [prefix + inps[b]];
  }

  /** The texts `prefix + inp` in the order of the two nested loops: prefix
      by prefix, and within a prefix input by input. */
  function Prefixed(prefixes: seq<string>, inps: seq<string>): seq<string>
  {
    if |prefixes| == 0 then []
    else Prefixed(prefixes[..|prefixes| - 1], inps) + Row(prefixes[|prefixes| - 1], inps)
  }

  lemma {:induction false} PrefixedAppend(xs: seq<string>, ys: seq<string>, inps: seq<string>)
    ensures Prefixed(xs + ys, inps) == Prefixed(xs, inps) + Prefixed(ys, inps)
  {
    if |ys| > 0 {
      var m := |ys| - 1;
      assert (xs + ys)[..|xs + ys| - 1] == xs + ys[..m];
      assert (xs + ys)[|xs + ys| - 1] == ys[m];
      PrefixedAppend(xs, ys[..m], inps);
      assert Prefixed(xs, inps) + Prefixed(ys[..m], inps) + Row(ys[m], inps) ==
             Prefixed(xs, inps) + (Prefixed(ys[..m], inps) + Row(ys[m], inps));
    } else {
      assert xs + ys == xs;
    }
  }

  /** The texts done when the row of prefix `a` stops after `n` inputs are
      the first ones of all the texts. */
  lemma PrefixedTail(prefixes: seq<string>, inps: seq<string>, a: nat, n: nat)
    requires a < |prefixes| && n <= |inps|
    ensures |Prefixed(prefixes[..a], inps)| + n <= |Prefixed(prefixes, inps)|
    ensures Prefixed(prefixes, inps)[..|Prefixed(prefixes[..a], inps)| + n] ==
            Prefixed(prefixes[..a], inps) + Row(prefixes[a], inps)[..n]
  {
    assert prefixes == prefixes[..a + 1] + prefixes[a + 1..];
    assert prefixes[..a + 1][..a] == prefixes[..a];
    PrefixedAppend(prefixes[..a + 1], prefixes[a + 1..], inps);
  }

  lemma TakeOneMore(texts: seq<string>, k: nat, t: string)
    requires k < |texts| && texts[k] == t
    ensures texts[..k + 1] == texts[..k] + [t]
  {
  }

  lemma MulStep(a: nat, m: nat)
    ensures (a + 1) * m == a * m + m
  {
  }

  lemma MulBelow(i: nat, n: nat, m: nat, j: nat)
    requires i < n && j < m
    ensures i * m + j < n * m
  {
    MulStep(i, m);
    assert (i + 1) * m <= n * m by {
      var d := n - (i + 1);
      assert n * m == (i + 1) * m + d * m;
    }
  }

  lemma {:induction false} PrefixedLength(prefixes: seq<string>, inps: seq<string>)
    ensures |Prefixed(prefixes, inps)| == |prefixes| * |inps|
  {
    if |prefixes| > 0 {
      PrefixedLength(prefixes[..|prefixes| - 1], inps);
      MulStep(|prefixes| - 1, |inps|);
    }
  }

  /** Every (prefix, input) pair is visited once: text `i * |inps| + j` is
      prefix `i` followed by input `j`. */
  lemma {:induction false} PrefixedAt(prefixes: seq<string>, inps: seq<string>, i: nat, j: nat)
    requires i < |prefixes| && j < |inps|
    ensures i * |inps| + j < |Prefixed(prefixes, inps)| && Prefixed(prefixes, inps)[i * |inps| + j] == prefixes[i] + inps[j]
  {
    var n := |prefixes| - 1;
    PrefixedLength(prefixes[..n], inps);
    PrefixedLength(prefixes, inps);
    if i < n {
      PrefixedAt(prefixes[..n], inps, i, j);
      MulBelow(i, n, |inps|, j);
    }
  }

  /** The token lists of a list of expansions. */
  function Sentences(xs: seq<(seq<string>, MPos)>): (ds: seq<seq<string>>)
    ensures |ds| == |xs|
  {
    seq(|xs|, i requires 0 <= i < |xs| => xs[i].0)
  }

  /** The token lists `_expand_macros` produces for `texts` in turn, up to the
      first text whose expansion raises, and that error. */
  function Expansions(tok: Tokenizer, lang: string, named: string -> seq<Variant>, texts: seq<string>)
    : (seq<seq<string>>, Option<Error>)
  {
    if |texts| == 0 then ([], None)
    else
      var prev := Expansions(tok, lang, named, texts[..|texts| - 1]);
      if prev.1.Some? then prev
      else match ExpandText(tok, lang, named, texts[|texts| - 1])
        case Err(e) => (prev.0, Some(e))
        case Ok(xs) => (prev.0 + Sentences(xs), None)
  }

  /** The last text decides the outcome only when the earlier ones all
      expanded. */
  lemma ExpansionsErrorLast(tok: Tokenizer, lang: string, named: string -> seq<Variant>, texts: seq<string>)
    requires |texts| > 0
    ensures Expansions(tok, lang, named, texts).1.None? <==>
      Expansions(tok, lang, named, texts[..|texts| - 1]).1.None? && ExpandText(tok, lang, named, texts[|texts| - 1]).Ok?
    ensures Expansions(tok, lang, named, texts[..|texts| - 1]).1.Some? ==>
      Expansions(tok, lang, named, texts).1 == Expansions(tok, lang, named, texts[..|texts| - 1]).1
    ensures Expansions(tok, lang, named, texts[..|texts| - 1]).1.None? && Expansions(tok, lang, named, texts).1.Some? ==>
      ExpandText(tok, lang, named, texts[|texts| - 1]) == Err(Expansions(tok, lang, named, texts).1.value)
  {
  }

  /** The run reports no error exactly when every text expands. */
  lemma {:induction false} ExpansionsOk(tok: Tokenizer, lang: string, named: string -> seq<Variant>, texts: seq<string>)
    ensures Expansions(tok, lang, named, texts).1.None? <==>
      forall k :: 0 <= k < |texts| ==> ExpandText(tok, lang, named, texts[k]).Ok?
  {
    if |texts| > 0 {
      var n := |texts| - 1;
      var prev := texts[..n];
      ExpansionsOk(tok, lang, named, prev);
      ExpansionsErrorLast(tok, lang, named, texts);
      assert (forall k :: 0 <= k < |texts| ==> ExpandText(tok, lang, named, texts[k]).Ok?) <==>
        (forall k :: 0 <= k < n ==> ExpandText(tok, lang, named, prev[k]).Ok?) && ExpandText(tok, lang, named, texts[n]).Ok?
      by {
        assert forall k :: 0 <= k < n ==> prev[k] == texts[k];
      }
    }
  }

  /** The run stops at the first text that does not expand, with that
      text's error. */
  lemma {:induction false} ExpansionsError(tok: Tokenizer, lang: string, named: string -> seq<Variant>, texts: seq<string>)
    requires Expansions(tok, lang, named, texts).1.Some?
    ensures exists k ::
      0 <= k < |texts| && ExpandText(tok, lang, named, texts[k]) == Err(Expansions(tok, lang, named, texts).1.value) &&
      forall k' :: 0 <= k' < k ==> ExpandText(tok, lang, named, texts[k']).Ok?
  {
    var n := |texts| - 1;
    var prev := texts[..n];
    ExpansionsErrorLast(tok, lang, named, texts);
    if Expansions(tok, lang, named, prev).1.Some? {
      ExpansionsError(tok, lang, named, prev);
      var k :| 0 <= k < n && ExpandText(tok, lang, named, prev[k]) == Err(Expansions(tok, lang, named, prev).1.value) &&
        forall k' :: 0 <= k' < k ==> ExpandText(tok, lang, named, prev[k']).Ok?;
      assert forall k' :: 0 <= k' < k ==> prev[k'] == texts[k'];
      assert ExpandText(tok, lang, named, texts[k]) == Err(Expansions(tok, lang, named, texts).1.value);
    } else {
      ExpansionsOk(tok, lang, named, prev);
      assert forall k' :: 0 <= k' < n ==> prev[k'] == texts[k'];
      assert ExpandText(tok, lang, named, texts[n]) == Err(Expansions(tok, lang, named, texts).1.value);
    }
  }

  /** The `i`-th hash after `a` earlier updates of the same text. */
  lemma HashCarries(digest: string -> string, fed: string, code: string, a: nat, i: nat)
    ensures HashAfter(digest, fed + Repeat(code, a), code, i) == HashAfter(digest, fed, code, a + i)
  {
    RepeatAdd(code, a, i + 1);
    assert fed + Repeat(code, a) + Repeat(code, i + 1) == fed + (Repeat(code, a) + Repeat(code, i + 1));
  }

  /** One text more: its token lists, if any, go after the earlier ones. */
  lemma ExpansionsLast(tok: Tokenizer, lang: string, named: string -> seq<Variant>, texts: seq<string>)
    requires |texts| > 0
    ensures Expansions(tok, lang, named, texts[..|texts| - 1]).0 <= Expansions(tok, lang, named, texts).0
    ensures Expansions(tok, lang, named, texts[..|texts| - 1]).1.Some? ==>
      Expansions(tok, lang, named, texts) == Expansions(tok, lang, named, texts[..|texts| - 1])
  {
  }

  /** Expanding more texts only adds token lists at the end, and once an
      error is met the later texts change nothing. */
  lemma {:induction false} ExpansionsGrow(tok: Tokenizer, lang: string, named: string -> seq<Variant>, texts: seq<string>, k: nat)
    requires k <= |texts|
    ensures Expansions(tok, lang, named, texts[..k]).0 <= Expansions(tok, lang, named, texts).0
    ensures Expansions(tok, lang, named, texts[..k]).1.Some? ==>
      Expansions(tok, lang, named, texts) == Expansions(tok, lang, named, texts[..k])
  {
    if k < |texts| {
      var n := |texts| - 1;
      ExpansionsGrow(tok, lang, named, texts[..n], k);
      assert texts[..n][..k] == texts[..k];
      ExpansionsLast(tok, lang, named, texts);
    } else {
      assert texts[..k] == texts;
    }
  }

  /** `n` copies of `s`, one after the other. */
  function Repeat(s: string, n: nat): string
  {
    if n == 0 then "" else Repeat(s, n - 1) + s
  }

  lemma {:induction false} RepeatAdd(s: string, a: nat, b: nat)
    ensures Repeat(s, a + b) == Repeat(s, a) + Repeat(s, b)
    decreases b
  {
    if b > 0 {
      RepeatAdd(s, a, b - 1);
    }
  }

  /** `md5.hexdigest()` right after the `i`-th (0-based) update of one call:
      the digest of everything fed since construction. */
  function HashAfter(digest: string -> string, fed: string, code: string, i: nat): string
  {
    digest(fed + Repeat(code, i + 1))
  }

  /** The Code rows of `n` samples. */
  function CodesFor(digest: string -> string, fed: string, moduleName: Option<string>, code: string, fn: string, n: nat)
    : (cs: seq<Code>)
    ensures |cs| == n
  {
    seq(n, i requires 0 <= i < n => Code(HashAfter(digest, fed, code, i), moduleName, code, fn))
  }

  /** The TrainingData rows of the token lists `ds`. */
  function SamplesFor(digest: string -> string, fed: string, lang: string, moduleName: Option<string>, loc: Location,
                      code: string, ds: seq<seq<string>>): (ss: seq<Sample>)
    ensures |ss| == |ds|
  {
    seq(|ds|, i requires 0 <= i < |ds| => Sample(lang, moduleName, Join(ds[i], " "), HashAfter(digest, fed, code, i), loc))
  }

  function Outcome(err: Option<Error>): Result<(), Error>
  {
    if err.None? then Ok(()) else Err(err.value)
  }

  /** What `generate_training_data` leaves behind when its expansions give
      the token lists `ds` and then, possibly, the error `err`. Each sample
      feeds `code` to the MD5 object and adds a Code row, then reads
      `src_location`: when that was never set the first sample stops there,
      with its Code row added but no TrainingData row and no count. */
  function Generated(digest: string -> string, db: Db, lang: string, moduleName: Option<string>, loc: Option<Location>,
                     code: string, fn: string, ds: seq<seq<string>>, err: Option<Error>): (Db, Result<(), Error>)
  {
    match loc
    case Some(l) =>
      (Db(db.md5Fed + Repeat(code, |ds|),
          db.codes + CodesFor(digest, db.md5Fed, moduleName, code, fn, |ds|),
          db.samples + SamplesFor(digest, db.md5Fed, lang, moduleName, l, code, ds),
          db.cntDt + |ds|),
       Outcome(err))
    case None =>
      if |ds| == 0 then (db, Outcome(err))
      else (Db(db.md5Fed + code, db.codes + CodesFor(digest, db.md5Fed, moduleName, code, fn, 1), db.samples, db.cntDt),
            Err(NoSourceLocation))
  }

  /** With a source location, a call adds one Code row and one TrainingData
      row per token list and raises the count by as many; the `i`-th new
      sample carries the `i`-th new Code row's hash, the digest of a prefix
      of the MD5 history the call leaves, and its input is its tokens joined
      by single spaces. */
  lemma GeneratedRows(digest: string -> string, db: Db, lang: string, moduleName: Option<string>, l: Location,
                      code: string, fn: string, ds: seq<seq<string>>, err: Option<Error>, i: nat)
    requires i < |ds|
    ensures var g := Generated(digest, db, lang, moduleName, Some(l), code, fn, ds, err).0;
      |g.samples| == |db.samples| + |ds| && |g.codes| == |db.codes| + |ds| && g.cntDt == db.cntDt + |ds| &&
      g.samples[..|db.samples|] == db.samples && g.codes[..|db.codes|] == db.codes &&
      g.samples[|db.samples| + i].md5s == g.codes[|db.codes| + i].md5s == HashAfter(digest, db.md5Fed, code, i) &&
      db.md5Fed + Repeat(code, i + 1) <= g.md5Fed &&
      g.codes[|db.codes| + i].code == code && g.samples[|db.samples| + i].inp == Join(ds[i], " ")
  {
    GeneratedTables(digest, db, lang, moduleName, l, code, fn, ds, err, i);
    GeneratedFed(digest, db, lang, moduleName, l, code, fn, ds, err, i);
  }

  lemma GeneratedTables(digest: string -> string, db: Db, lang: string, moduleName: Option<string>, l: Location,
                        code: string, fn: string, ds: seq<seq<string>>, err: Option<Error>, i: nat)
    requires i < |ds|
    ensures var g := Generated(digest, db, lang, moduleName, Some(l), code, fn, ds, err).0;
      |g.samples| == |db.samples| + |ds| && |g.codes| == |db.codes| + |ds| && g.cntDt == db.cntDt + |ds| &&
      g.samples[..|db.samples|] == db.samples && g.codes[..|db.codes|] == db.codes &&
      g.samples[|db.samples| + i].md5s == g.codes[|db.codes| + i].md5s == HashAfter(digest, db.md5Fed, code, i) &&
      g.codes[|db.codes| + i].code == code && g.samples[|db.samples| + i].inp == Join(ds[i], " ")
  {
    var cs := CodesFor(digest, db.md5Fed, moduleName, code, fn, |ds|);
    var ss := SamplesFor(digest, db.md5Fed, lang, moduleName, l, code, ds);
    var g := Generated(digest, db, lang, moduleName, Some(l), code, fn, ds, err).0;
    assert g.codes == db.codes + cs && g.samples == db.samples + ss;
    assert g.codes[|db.codes| + i] == cs[i] && g.samples[|db.samples| + i] == ss[i];
  }

  lemma GeneratedFed(digest: string -> string, db: Db, lang: string, moduleName: Option<string>, l: Location,
                     code: string, fn: string, ds: seq<seq<string>>, err: Option<Error>, i: nat)
    requires i < |ds|
    ensures db.md5Fed + Repeat(code, i + 1) <= Generated(digest, db, lang, moduleName, Some(l), code, fn, ds, err).0.md5Fed
  {
    RepeatAdd(code, i + 1, |ds| - (i + 1));
    assert db.md5Fed + Repeat(code, |ds|) == (db.md5Fed + Repeat(code, i + 1)) + Repeat(code, |ds| - (i + 1));
  }

  lemma {:induction false} RepeatLength(s: string, n: nat)
    ensures |Repeat(s, n)| == n * |s|
  {
    if n > 0 {
      RepeatLength(s, n - 1);
      MulStep(n - 1, |s|);
    }
  }

  /** Hashes never repeat within one call when `code` is not empty and the
      digest tells texts apart: each update lengthens the history. */
  lemma GeneratedHashesDistinct(digest: string -> string, fed: string, code: string, i: nat, j: nat)
    requires code != "" && i != j
    requires forall a, b :: digest(a) == digest(b) ==> a == b
    ensures HashAfter(digest, fed, code, i) != HashAfter(digest, fed, code, j)
  {
    RepeatLength(code, i + 1);
    RepeatLength(code, j + 1);
    if i < j {
      MulBelow(i + 1, j + 1, |code|, 0);
    } else {
      MulBelow(j + 1, i + 1, |code|, 0);
    }
  }

  lemma CodesForAppend(digest: string -> string, fed: string, moduleName: Option<string>, code: string, fn: string, a: nat, b: nat)
    ensures CodesFor(digest, fed, moduleName, code, fn, a) + CodesFor(digest, fed + Repeat(code, a), moduleName, code, fn, b) ==
            CodesFor(digest, fed, moduleName, code, fn, a + b)
  {
    forall i | 0 <= i < b ensures HashAfter(digest, fed + Repeat(code, a), code, i) == HashAfter(digest, fed, code, a + i) {
      HashCarries(digest, fed, code, a, i);
    }
  }

  lemma SamplesForAppend(digest: string -> string, fed: string, lang: string, moduleName: Option<string>, l: Location,
                         code: string, ds1: seq<seq<string>>, ds2: seq<seq<string>>)
    ensures SamplesFor(digest, fed, lang, moduleName, l, code, ds1) + SamplesFor(digest, fed + Repeat(code, |ds1|), lang, moduleName, l, code, ds2) ==
            SamplesFor(digest, fed, lang, moduleName, l, code, ds1 + ds2)
  {
    var a := SamplesFor(digest, fed, lang, moduleName, l, code, ds1);
    var b := SamplesFor(digest, fed + Repeat(code, |ds1|), lang, moduleName, l, code, ds2);
    var c := SamplesFor(digest, fed, lang, moduleName, l, code, ds1 + ds2);
    forall i | 0 <= i < |c|
      ensures (a + b)[i] == c[i]
    {
      if i >= |ds1| {
        HashCarries(digest, fed, code, |ds1|, i - |ds1|);
        assert (ds1 + ds2)[i] == ds2[i - |ds1|];
      } else {
        assert (ds1 + ds2)[i] == ds1[i];
      }
    }
    assert a + b == c;
  }

  /** Two runs one after the other leave what one run over both lists of
      token lists leaves: the MD5 history carries over from the first to the
      second. This is what lets the loops of `generate_training_data` add
      samples one expansion at a time. */
  lemma GeneratedAppend(digest: string -> string, db: Db, lang: string, moduleName: Option<string>, loc: Option<Location>,
                        code: string, fn: string, ds1: seq<seq<string>>, ds2: seq<seq<string>>, err: Option<Error>)
    requires Generated(digest, db, lang, moduleName, loc, code, fn, ds1, None).1.Ok?
    ensures Generated(digest, Generated(digest, db, lang, moduleName, loc, code, fn, ds1, None).0, lang, moduleName, loc, code, fn, ds2, err) ==
            Generated(digest, db, lang, moduleName, loc, code, fn, ds1 + ds2, err)
  {
    if loc.Some? {
      GeneratedAppendAt(digest, db, lang, moduleName, loc.value, code, fn, ds1, ds2, err);
    } else {
      assert ds1 + ds2 == ds2;
    }
  }

  lemma GeneratedAppendAt(digest: string -> string, db: Db, lang: string, moduleName: Option<string>, l: Location,
                          code: string, fn: string, ds1: seq<seq<string>>, ds2: seq<seq<string>>, err: Option<Error>)
    ensures Generated(digest, Generated(digest, db, lang, moduleName, Some(l), code, fn, ds1, None).0, lang, moduleName, Some(l), code, fn, ds2, err) ==
            Generated(digest, db, lang, moduleName, Some(l), code, fn, ds1 + ds2, err)
  {
    var fed := db.md5Fed + Repeat(code, |ds1|);
    RepeatAdd(code, |ds1|, |ds2|);
    assert fed + Repeat(code, |ds2|) == db.md5Fed + (Repeat(code, |ds1|) + Repeat(code, |ds2|));
    var c1 := CodesFor(digest, db.md5Fed, moduleName, code, fn, |ds1|);
    var c2 := CodesFor(digest, fed, moduleName, code, fn, |ds2|);
    CodesForAppend(digest, db.md5Fed, moduleName, code, fn, |ds1|, |ds2|);
    assert db.codes + c1 + c2 == db.codes + (c1 + c2);
    var s1 := SamplesFor(digest, db.md5Fed, lang, moduleName, l, code, ds1);
    var s2 := SamplesFor(digest, fed, lang, moduleName, l, code, ds2);
    SamplesForAppend(digest, db.md5Fed, lang, moduleName, l, code, ds1, ds2);
    assert db.samples + s1 + s2 == db.samples + (s1 + s2);
  }

  lemma GeneratedNothing(digest: string -> string, db: Db, lang: string, moduleName: Option<string>, loc: Option<Location>,
                         code: string, fn: string)
    ensures Generated(digest, db, lang, moduleName, loc, code, fn, [], None) == (db, Ok(()))
  {
    if loc.Some? {
      assert db.md5Fed + Repeat(code, 0) == db.md5Fed;
      assert db.codes + CodesFor(digest, db.md5Fed, moduleName, code, fn, 0) == db.codes;
      assert db.samples + SamplesFor(digest, db.md5Fed, lang, moduleName, loc.value, code, []) == db.samples;
    }
  }

  /** Without a source location the first sample stops the call: its hash
      and Code row are added, nothing else. */
  lemma GeneratedUnlocated(digest: string -> string, db: Db, lang: string, moduleName: Option<string>,
                           code: string, fn: string, ds: seq<seq<string>>, err: Option<Error>)
    requires |ds| > 0
    ensures Generated(digest, db, lang, moduleName, None, code, fn, ds, err) ==
      (Db(db.md5Fed + code, db.codes + [Code(digest(db.md5Fed + code), moduleName, code, fn)], db.samples, db.cntDt),
       Err(NoSourceLocation))
  {
    assert Repeat(code, 1) == code;
    assert CodesFor(digest, db.md5Fed, moduleName, code, fn, 1) == [Code(digest(db.md5Fed + code), moduleName, code, fn)];
  }

  /** One sample with a source location: one update of the MD5 object, one
      Code row and one TrainingData row carrying the new hash, one count. */
  lemma GeneratedOne(digest: string -> string, db: Db, lang: string, moduleName: Option<string>, l: Location,
                     code: string, fn: string, d: seq<string>)
    ensures Generated(digest, db, lang, moduleName, Some(l), code, fn, [d], None) ==
      (Db(db.md5Fed + code,
          db.codes + [Code(digest(db.md5Fed + code), moduleName, code, fn)],
          db.samples + [Sample(lang, moduleName, Join(d, " "), digest(db.md5Fed + code), l)],
          db.cntDt + 1),
       Ok(()))
  {
    assert Repeat(code, 1) == code;
    assert CodesFor(digest, db.md5Fed, moduleName, code, fn, 1) == [Code(digest(db.md5Fed + code), moduleName, code, fn)];
    assert SamplesFor(digest, db.md5Fed, lang, moduleName, l, code, [d]) ==
      [Sample(lang, moduleName, Join(d, " "), digest(db.md5Fed + code), l)];
  }

  /** `cnt_dt` counts TrainingData rows of the current module: the last
      `cnt_dt` rows belong to it. */
  predicate Counted(db: Db, moduleName: Option<string>)
  {
    db.cntDt <= |db.samples| &&
    forall i :: |db.samples| - db.cntDt <= i < |db.samples| ==> db.samples[i].moduleName == moduleName
  }

  /** `cnt_ts` counts TestCase rows of the current module. */
  predicate TestsCounted(tests: seq<TestCase>, cntTs: nat, moduleName: Option<string>)
  {
    cntTs <= |tests| &&
    forall i :: |tests| - cntTs <= i < |tests| ==> tests[i].moduleName == moduleName
  }

  /** `generate_training_data` keeps `cnt_dt` a count of the current
      module's rows: it adds exactly as many rows, all of that module, as it
      adds to the count. */
  lemma GeneratedCounted(digest: string -> string, db: Db, lang: string, moduleName: Option<string>, loc: Option<Location>,
                         code: string, fn: string, ds: seq<seq<string>>, err: Option<Error>)
    requires Counted(db, moduleName)
    ensures Counted(Generated(digest, db, lang, moduleName, loc, code, fn, ds, err).0, moduleName)
  {
  }

  /** `db` and `res` are what `generate_training_data` leaves, starting from
      `db0`, once it has expanded `done`. */
  predicate ReachedBy(digest: string -> string, db0: Db, lang: string, moduleName: Option<string>, loc: Option<Location>,
                      code: string, fn: string, tok: Tokenizer, named: string -> seq<Variant>, done: seq<string>,
                      db: Db, res: Result<(), Error>)
  {
    (db, res) == Generated(digest, db0, lang, moduleName, loc, code, fn,
                           Expansions(tok, lang, named, done).0, Expansions(tok, lang, named, done).1)
  }

  /** The count stays a count of the current module's rows. */
  lemma ReachedCounted(digest: string -> string, db0: Db, lang: string, moduleName: Option<string>, loc: Option<Location>,
                       code: string, fn: string, tok: Tokenizer, named: string -> seq<Variant>, done: seq<string>,
                       db: Db, res: Result<(), Error>)
    requires Counted(db0, moduleName)
    requires ReachedBy(digest, db0, lang, moduleName, loc, code, fn, tok, named, done, db, res)
    ensures Counted(db, moduleName)
  {
    GeneratedCounted(digest, db0, lang, moduleName, loc, code, fn,
                     Expansions(tok, lang, named, done).0, Expansions(tok, lang, named, done).1);
  }

  lemma ReachedStart(digest: string -> string, db0: Db, lang: string, moduleName: Option<string>, loc: Option<Location>,
                     code: string, fn: string, tok: Tokenizer, named: string -> seq<Variant>)
    ensures ReachedBy(digest, db0, lang, moduleName, loc, code, fn, tok, named, [], db0, Ok(()))
  {
    GeneratedNothing(digest, db0, lang, moduleName, loc, code, fn);
  }

  /** A text that expands: its samples are added after those of the texts
      before it. */
  lemma ReachedStep(digest: string -> string, db0: Db, lang: string, moduleName: Option<string>, loc: Option<Location>,
                    code: string, fn: string, tok: Tokenizer, named: string -> seq<Variant>, done: seq<string>,
                    db: Db, t: string, xs: seq<(seq<string>, MPos)>, db1: Db, r: Result<(), Error>)
    requires ReachedBy(digest, db0, lang, moduleName, loc, code, fn, tok, named, done, db, Ok(()))
    requires ExpandText(tok, lang, named, t) == Ok(xs)
    requires (db1, r) == Generated(digest, db, lang, moduleName, loc, code, fn, Sentences(xs), None)
    ensures ReachedBy(digest, db0, lang, moduleName, loc, code, fn, tok, named, done + [t], db1, r)
  {
    assert (done + [t])[..|done|] == done;
    GeneratedAppend(digest, db0, lang, moduleName, loc, code, fn, Expansions(tok, lang, named, done).0, Sentences(xs), None);
  }

  /** A text that does not expand stops the call with its error. */
  lemma ReachedError(digest: string -> string, db0: Db, lang: string, moduleName: Option<string>, loc: Option<Location>,
                     code: string, fn: string, tok: Tokenizer, named: string -> seq<Variant>, done: seq<string>,
                     db: Db, t: string, e: Error)
    requires ReachedBy(digest, db0, lang, moduleName, loc, code, fn, tok, named, done, db, Ok(()))
    requires ExpandText(tok, lang, named, t) == Err(e)
    ensures ReachedBy(digest, db0, lang, moduleName, loc, code, fn, tok, named, done + [t], db, Err(e))
  {
    assert (done + [t])[..|done|] == done;
  }

  /** Once the call has failed, the texts it did not reach change nothing. */
  lemma ReachedStops(digest: string -> string, db0: Db, lang: string, moduleName: Option<string>, loc: Option<Location>,
                     code: string, fn: string, tok: Tokenizer, named: string -> seq<Variant>, texts: seq<string>, k: nat,
                     db: Db, res: Result<(), Error>)
    requires k <= |texts|
    requires ReachedBy(digest, db0, lang, moduleName, loc, code, fn, tok, named, texts[..k], db, res)
    requires res.Err?
    ensures ReachedBy(digest, db0, lang, moduleName, loc, code, fn, tok, named, texts, db, res)
  {
    ExpansionsGrow(tok, lang, named, texts, k);
    if Expansions(tok, lang, named, texts[..k]).1.None? {
      GeneratedUnlocated(digest, db0, lang, moduleName, code, fn, Expansions(tok, lang, named, texts[..k]).0, None);
      GeneratedUnlocated(digest, db0, lang, moduleName, code, fn,
                         Expansions(tok, lang, named, texts).0, Expansions(tok, lang, named, texts).1);
    }
  }
  /** A failure in the row of prefix `a`, after `n` of its inputs, is where
      the whole call stops. */
  lemma ReachedStopsInRow(digest: string -> string, db0: Db, lang: string, moduleName: Option<string>, loc: Option<Location>,
                          code: string, fn: string, tok: Tokenizer, named: string -> seq<Variant>,
                          prefixes: seq<string>, inps: seq<string>, a: nat, n: nat, db: Db, res: Result<(), Error>)
    requires a < |prefixes| && n <= |inps|
    requires ReachedBy(digest, db0, lang, moduleName, loc, code, fn, tok, named,
                       Prefixed(prefixes[..a], inps) + Row(prefixes[a], inps)[..n], db, res)
    requires res.Err?
    ensures ReachedBy(digest, db0, lang, moduleName, loc, code, fn, tok, named, Prefixed(prefixes, inps), db, res)
  {
    var done := Prefixed(prefixes[..a], inps) + Row(prefixes[a], inps)[..n];
    var texts := Prefixed(prefixes, inps);
    var k := |Prefixed(prefixes[..a], inps)| + n;
    PrefixedTail(prefixes, inps, a, n);
    assert texts[..k] == done;
    ReachedStops(digest, db0, lang, moduleName, loc, code, fn, tok, named, texts, k, db, res);
  }


  /** `self.session.add(model.NamedMacro(...))` rows of one language and
      name, in the order they were added: `lookup_named_macro`. */
  function LookupNamed(rows: seq<NamedMacro>, lang: string, name: string): (vs: seq<Variant>)
    ensures |vs| <= |rows|
    ensures forall v :: v in vs <==> exists i :: 0 <= i < |rows| && rows[i] == NamedMacro(lang, rows[i].moduleName, name, v)
  {
    if |rows| == 0 then []
    else (if rows[0].lang == lang && rows[0].name == name then [rows[0].soln] else []) + LookupNamed(rows[1..], lang, name)
  }

  /** A row added by `macro` is found last by a later lookup of its language
      and name, and no other lookup changes. */
  lemma {:induction false} LookupNamedAdded(rows: seq<NamedMacro>, row: NamedMacro, lang: string, name: string)
    ensures LookupNamed(rows + [row], lang, name) ==
      LookupNamed(rows, lang, name) + (if row.lang == lang && row.name == name then [row.soln] else [])
  {
    if |rows| > 0 {
      assert (rows + [row])[1..] == rows[1..] + [row];
      LookupNamedAdded(rows[1..], row, lang, name);
    }
  }

  /** The named macros of one language as the expansion sees them. */
  function Named(rows: seq<NamedMacro>, lang: string): string -> seq<Variant>
  {
    name => LookupNamed(rows, lang, name)
  }

  /** The rows outside module `m`: what `...filter(module == m).delete()`
      leaves of a table. A row without a module is kept. */
  function Outside<T(!new)>(rows: seq<T>, moduleOf: T -> Option<string>, m: string): (res: seq<T>)
    ensures |res| <= |rows|
    ensures forall x :: x in res <==> x in rows && moduleOf(x) != Some(m)
  {
    if |rows| == 0 then []
    else (if moduleOf(rows[0]) == Some(m) then [] else [rows[0]]) + Outside(rows[1..], moduleOf, m)
  }

  function SampleModule(s: Sample): Option<string> { s.moduleName }
  function CodeModule(c: Code): Option<string> { c.moduleName }
  function TestModule(t: TestCase): Option<string> { t.moduleName }
  function MacroModule(n: NamedMacro): Option<string> { n.moduleName }
  function NerModule(n: NerRow): Option<string> { n.moduleName }

  /** `ts` normalises each round `(inp, resp, actions)` by tokenising the
      input and the response and joining the tokens with single spaces. */
  function Normalized(tok: Tokenizer, lang: string, rounds: seq<(string, string, string)>): (rs: seq<Round>)
    ensures |rs| == |rounds|
  {
    seq(|rounds|, i requires 0 <= i < |rounds| =>
      Round(Join(tok.plain(rounds[i].0, lang), " "), Join(tok.plain(rounds[i].1, lang), " "), rounds[i].2))
  }
}
