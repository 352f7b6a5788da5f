/** Class `DataEngine` (zamiaai/data_engine.py:56-477): the controller
    between the authoring modules and the database. The session's tables
    are sequences of rows in the order they were added; the MD5 object is
    the text fed to it so far, digested by an abstract `digest`. */
module Engine {
  import opened Wrappers
  import Text
  import opened Macros
  import opened Expansion
  import opened Expander
  import opened Training
  import opened Responses
  import opened NamedTables

  class DataEngine {
    const tok: Tokenizer
    const digest: string -> string

    var md5Fed: string
    var prefixes: seq<string>
    var moduleName: Option<string>
    /** `self.src_location`: it starts at the default `('unknown', 0)`,
        which `__init__` puts in `source_location` instead; None is the
        as-written state of an engine whose `src_location` was never set. */
    var srcLocation: Option<Location>
    var cntDt: nat
    var cntTs: nat

    var codes: seq<Code>
    var samples: seq<Sample>
    var tests: seq<TestCase>
    var macros: seq<NamedMacro>
    var nerData: seq<NerRow>

    /** `self.named_macros_mod`: `__init__` does not create it and no code
        of the engine assigns it, so it is None unless a caller sets it. */
    var namedMacrosMod: Option<seq<(string, ModuleTable)>>
    /** `self.named_macros`: None until `compute_named_macros` first runs. */
    var namedMacros: Option<Tables>

    /** The counters count rows of the current module: the last `cnt_dt`
        TrainingData rows and the last `cnt_ts` TestCase rows belong to it. */
    ghost predicate Valid()
      reads this
    {
      Counted(Snapshot(), moduleName) && TestsCounted(tests, cntTs, moduleName)
    }

    function Snapshot(): Db
      reads this
    {
      Db(md5Fed, codes, samples, cntDt)
    }

    /** `__init__` (data_engine.py:58-76), with the database empty. The
        default location `('unknown', 0)` is given to `src_location`, the
        attribute generation reads; `__init__` assigns it to
        `source_location` instead (line 73). */
    constructor(tok: Tokenizer, digest: string -> string)
      ensures this.tok == tok && this.digest == digest
      ensures md5Fed == "" && prefixes == [] && moduleName == None && srcLocation == Some(UnknownLocation)
      ensures cntDt == 0 && cntTs == 0
      ensures codes == [] && samples == [] && tests == [] && macros == [] && nerData == []
      ensures namedMacrosMod == None && namedMacros == None
      ensures Valid()
    {
      this.tok := tok;
      this.digest := digest;
      md5Fed := "";
      prefixes := [];
      moduleName := None;
      srcLocation := Some(UnknownLocation);
      cntDt := 0;
      cntTs := 0;
      codes := [];
      samples := [];
      tests := [];
      macros := [];
      nerData := [];
      namedMacrosMod := None;
      namedMacros := None;
    }

    /** `get_stats`: how many training samples and test cases the current
        module has added since it was last cleared. */
    function GetStats(): (stats: (nat, nat))
      reads this
      requires Valid()
      ensures stats.0 <= |samples| && stats.1 <= |tests|
      ensures forall i :: |samples| - stats.0 <= i < |samples| ==> samples[i].moduleName == moduleName
      ensures forall i :: |tests| - stats.1 <= i < |tests| ==> tests[i].moduleName == moduleName
    {
      (cntDt, cntTs)
    }

    /** `clear(module_name)`: drop the module's rows from every table and
        reset both counters. */
    method Clear(m: string)
      modifies this`codes, this`samples, this`tests, this`macros, this`nerData, this`cntDt, this`cntTs
      ensures samples == Outside(old(samples), SampleModule, m)
      ensures codes == Outside(old(codes), CodeModule, m)
      ensures tests == Outside(old(tests), TestModule, m)
      ensures nerData == Outside(old(nerData), NerModule, m)
      ensures macros == Outside(old(macros), MacroModule, m)
      ensures cntDt == 0 && cntTs == 0
      ensures Valid()
    {
      samples := Outside(samples, SampleModule, m);
      codes := Outside(codes, CodeModule, m);
      tests := Outside(tests, TestModule, m);
      nerData := Outside(nerData, NerModule, m);
      macros := Outside(macros, MacroModule, m);
      cntDt := 0;
      cntTs := 0;
    }

    /** `prepare_compilation(module_name)`: clear the module, then make it the
        module new rows belong to. */
    method PrepareCompilation(m: string)
      modifies this`codes, this`samples, this`tests, this`macros, this`nerData, this`cntDt, this`cntTs, this`moduleName
      ensures samples == Outside(old(samples), SampleModule, m)
      ensures codes == Outside(old(codes), CodeModule, m)
      ensures tests == Outside(old(tests), TestModule, m)
      ensures nerData == Outside(old(nerData), NerModule, m)
      ensures macros == Outside(old(macros), MacroModule, m)
      ensures cntDt == 0 && cntTs == 0 && moduleName == Some(m)
      ensures Valid()
    {
      Clear(m);
      moduleName := Some(m);
    }

    method SetPrefixes(ps: seq<string>)
      modifies this`prefixes
      ensures prefixes == ps
    {
      prefixes := ps;
    }

    /** `macro(lang, name, soln)`: one more NamedMacro row of the current
        module. */
    method Macro(lang: string, name: string, soln: Variant)
      modifies this`macros
      ensures macros == old(macros) + [NamedMacro(lang, moduleName, name, soln)]
      ensures LookupNamed(macros, lang, name) == LookupNamed(old(macros), lang, name) + [soln]
    {
      LookupNamedAdded(macros, NamedMacro(lang, moduleName, name, soln), lang, name);
      macros := macros + [NamedMacro(lang, moduleName, name, soln)];
    }

    /** `lookup_named_macro(lang, name)`: the solutions of the rows of that
        language and name, in order. */
    method LookupNamedMacro(lang: string, name: string) returns (res: seq<Variant>)
      ensures res == LookupNamed(macros, lang, name)
    {
      res := [];
      for i := 0 to |macros|
        invariant res == LookupNamed(macros[..i], lang, name)
      {
        LookupNamedAdded(macros[..i], macros[i], lang, name);
        assert macros[..i + 1] == macros[..i] + [macros[i]];
        if macros[i].lang == lang && macros[i].name == name {
          res := res + [macros[i].soln];
        }
      }
      assert macros[..|macros|] == macros;
    }

    /** `compute_named_macros` (data_engine.py:88-97): `named_macros` is
        reset first, then `named_macros_mod` is read, raising when it was
        never assigned. */
    method ComputeNamedMacros() returns (res: Result<(), Error>)
      modifies this`namedMacros
      ensures namedMacrosMod.None? ==> res == Err(NoNamedMacrosMod) && namedMacros == Some(map[])
      ensures namedMacrosMod.Some? ==> res == Ok(()) && namedMacros == Some(MergeAll(namedMacrosMod.value))
    {
      namedMacros := Some(map[]);
      if namedMacrosMod.None? {
        return Err(NoNamedMacrosMod);
      }
      var mods := namedMacrosMod.value;
      for i := 0 to |mods|
        invariant namedMacros == Some(MergeAll(mods[..i]))
      {
        assert mods[..i + 1][..i] == mods[..i];
        MergeModuleInto(mods[i].1);
      }
      assert mods[..|mods|] == mods;
      res := Ok(());
    }

    method MergeModuleInto(t: ModuleTable)
      requires namedMacros.Some?
      modifies this`namedMacros
      ensures namedMacros == Some(MergeModule(old(namedMacros).value, t))
    {
      ghost var m0 := namedMacros.value;
      for j := 0 to |t|
        invariant namedMacros == Some(MergeModule(m0, t[..j]))
      {
        assert t[..j + 1][..j] == t[..j];
        var lang := t[j].0;
        if lang !in namedMacros.value {
          namedMacros := Some(namedMacros.value[lang := map[]]);
        }
        MergeLangInto(lang, t[j].1);
      }
      assert t[..|t|] == t;
    }

    method MergeLangInto(lang: string, t: LangTable)
      requires namedMacros.Some? && lang in namedMacros.value
      modifies this`namedMacros
      ensures namedMacros == Some(MergeLang(old(namedMacros).value, lang, t))
    {
      ghost var m0 := namedMacros.value;
      for k := 0 to |t|
        invariant namedMacros.Some? && lang in namedMacros.value
        invariant namedMacros == Some(MergeLang(m0, lang, t[..k]))
      {
        assert t[..k + 1][..k] == t[..k];
        var n := t[k].0;
        var table := namedMacros.value;
        var listed := if n in table[lang] then table[lang][n] else [];
        namedMacros := Some(table[lang := table[lang][n := listed + t[k].1]]);
      }
      assert t[..|t|] == t;
    }

    /** `generate_training_data(lang, inps, code_ast, code_fn)`
        (data_engine.py:345-381), with `code` the source
        `_generate_training_code` regenerates: for every prefix (`['']` when
        none are set) and every input, every expansion of `prefix + inp`
        feeds `code` to the MD5 object and adds a Code row and a
        TrainingData row under the resulting hash. The first error stops it,
        keeping what was added before. */
    method GenerateTrainingData(lang: string, inps: seq<string>, code: string, fn: string) returns (res: Result<(), Error>)
      requires Valid()
      modifies this`md5Fed, this`codes, this`samples, this`cntDt
      ensures Valid()
      ensures ReachedBy(digest, old(Snapshot()), lang, moduleName, srcLocation, code, fn,
                        tok, Named(macros, lang), Prefixed(PrefixesOrEmpty(prefixes), inps), Snapshot(), res)
    {
      var ps := PrefixesOrEmpty(prefixes);
      var named := Named(macros, lang);
      ghost var db0 := Snapshot();
      ghost var done: seq<string> := [];
      ReachedStart(digest, db0, lang, moduleName, srcLocation, code, fn, tok, named);
      res := Ok(());
      for a := 0 to |ps|
        invariant res == Ok(()) && done == Prefixed(ps[..a], inps)
        invariant ReachedBy(digest, db0, lang, moduleName, srcLocation, code, fn, tok, named, done, Snapshot(), Ok(()))
      {
        ghost var n;
        res, n := GenerateRow(lang, named, ps[a], inps, code, fn, db0, done);
        assert ps[..a + 1][..a] == ps[..a];
        if res.Err? {
          ReachedStopsInRow(digest, db0, lang, moduleName, srcLocation, code, fn, tok, named, ps, inps, a, n, Snapshot(), res);
          ReachedCounted(digest, db0, lang, moduleName, srcLocation, code, fn, tok, named, Prefixed(ps, inps), Snapshot(), res);
          return;
        }
        assert Row(ps[a], inps)[..n] == Row(ps[a], inps);
        done := done + Row(ps[a], inps);
      }
      assert ps[..|ps|] == ps;
      ReachedCounted(digest, db0, lang, moduleName, srcLocation, code, fn, tok, named, done, Snapshot(), res);
    }

    /** The input loop of `generate_training_data` (data_engine.py:353-381)
        for one prefix: `n` texts of the row are done, all of them unless an
        error stopped it. */
    method GenerateRow(lang: string, named: string -> seq<Variant>, p: string, inps: seq<string>, code: string, fn: string,
                       ghost db0: Db, ghost done0: seq<string>)
      returns (res: Result<(), Error>, ghost n: nat)
      requires ReachedBy(digest, db0, lang, moduleName, srcLocation, code, fn, tok, named, done0, Snapshot(), Ok(()))
      modifies this`md5Fed, this`codes, this`samples, this`cntDt
      ensures n <= |inps| && (res.Ok? ==> n == |inps|)
      ensures ReachedBy(digest, db0, lang, moduleName, srcLocation, code, fn, tok, named, done0 + Row(p, inps)[..n], Snapshot(), res)
    {
      n := 0;
      res := Ok(());
      assert done0 + Row(p, inps)[..0] == done0;
      for b := 0 to |inps|
        invariant n == b && res == Ok(())
        invariant ReachedBy(digest, db0, lang, moduleName, srcLocation, code, fn, tok, named, done0 + Row(p, inps)[..b], Snapshot(), Ok(()))
      {
        RowNext(done0, p, inps, b);
        res := GenerateNext(lang, named, p + inps[b], code, fn, db0, done0 + Row(p, inps)[..b]);
        n := b + 1;
        if res.Err? {
          return;
        }
      }
      assert Row(p, inps)[..|inps|] == Row(p, inps);
    }

    /** One text more of `generate_training_data`'s progress. */
    method GenerateNext(lang: string, named: string -> seq<Variant>, text: string, code: string, fn: string,
                        ghost db0: Db, ghost done: seq<string>)
      returns (res: Result<(), Error>)
      requires ReachedBy(digest, db0, lang, moduleName, srcLocation, code, fn, tok, named, done, Snapshot(), Ok(()))
      modifies this`md5Fed, this`codes, this`samples, this`cntDt
      ensures ReachedBy(digest, db0, lang, moduleName, srcLocation, code, fn, tok, named, done + [text], Snapshot(), res)
    {
      ghost var before := Snapshot();
      res := GenerateText(lang, named, text, code, fn);
      if ExpandText(tok, lang, named, text).Err? {
        ReachedError(digest, db0, lang, moduleName, srcLocation, code, fn, tok, named, done, before,
                     text, ExpandText(tok, lang, named, text).error);
      } else {
        ReachedStep(digest, db0, lang, moduleName, srcLocation, code, fn, tok, named, done, before,
                    text, ExpandText(tok, lang, named, text).value, Snapshot(), res);
      }
    }

    /** The body of the input loop of `generate_training_data`
        (data_engine.py:353-381): expand one text and add a sample for each
        expansion, or stop with the expansion's error. */
    method GenerateText(lang: string, named: string -> seq<Variant>, text: string, code: string, fn: string)
      returns (res: Result<(), Error>)
      modifies this`md5Fed, this`codes, this`samples, this`cntDt
      ensures ExpandText(tok, lang, named, text).Err? ==>
        Snapshot() == old(Snapshot()) && res == Err(ExpandText(tok, lang, named, text).error)
      ensures ExpandText(tok, lang, named, text).Ok? ==>
        (Snapshot(), res) ==
          Generated(digest, old(Snapshot()), lang, moduleName, srcLocation, code, fn, Sentences(ExpandText(tok, lang, named, text).value), None)
    {
      var xs := ExpandMacros(tok, lang, named, text);
      if xs.Err? {
        return Err(xs.error);
      }
      res := AddSamples(lang, Sentences(xs.value), code, fn);
    }

    /** The innermost loop of `generate_training_data`
        (data_engine.py:357-381), over the expansions of one text. */
    method AddSamples(lang: string, ds: seq<seq<string>>, code: string, fn: string) returns (res: Result<(), Error>)
      modifies this`md5Fed, this`codes, this`samples, this`cntDt
      ensures (Snapshot(), res) == Generated(digest, old(Snapshot()), lang, moduleName, srcLocation, code, fn, ds, None)
    {
      ghost var db0 := Snapshot();
      res := Ok(());
      GeneratedNothing(digest, db0, lang, moduleName, srcLocation, code, fn);
      assert ds[..0] == [];
      for i := 0 to |ds|
        invariant Generated(digest, db0, lang, moduleName, srcLocation, code, fn, ds[..i], None) == (Snapshot(), Ok(()))
      {
        ghost var before := Snapshot();
        md5Fed := md5Fed + code;
        var md5s := digest(md5Fed);
        codes := codes + [Code(md5s, moduleName, code, fn)];
        if srcLocation.None? {
          GeneratedUnlocated(digest, db0, lang, moduleName, code, fn, ds, None);
          return Err(NoSourceLocation);
        }
        samples := samples + [Sample(lang, moduleName, Text.Join(ds[i], " "), md5s, srcLocation.value)];
        cntDt := cntDt + 1;
        GeneratedOne(digest, before, lang, moduleName, srcLocation.value, code, fn, ds[i]);
        GeneratedAppend(digest, db0, lang, moduleName, srcLocation, code, fn, ds[..i], [ds[i]], None);
        assert ds[..i] + [ds[i]] == ds[..i + 1];
      }
      assert ds[..|ds|] == ds;
    }

    /** `dt(lang, inps, resp)` (data_engine.py:401-443): normalise the inputs
        and the response, record the caller's location, and generate. A
        response source `ast.parse` rejects stops it before the location is
        recorded; a response function without a `def` stops it right after. */
    method Dt(lang: string, inps: Inputs, resp: Response, cg: Codegen, caller: Location) returns (res: Result<(), Error>)
      requires Valid()
      modifies this`md5Fed, this`codes, this`samples, this`cntDt, this`srcLocation
      ensures Valid()
      ensures ResponseCode(cg, resp).Err? ==> Snapshot() == old(Snapshot()) && res == Err(ResponseCode(cg, resp).error)
      ensures srcLocation == (if ResponseCode(cg, resp) == Err(BadSource) then old(srcLocation) else Some(caller))
      ensures ResponseCode(cg, resp).Ok? ==>
        ReachedBy(digest, old(Snapshot()), lang, moduleName, Some(caller),
                  ResponseCode(cg, resp).value.0, ResponseCode(cg, resp).value.1,
                  tok, Named(macros, lang), Prefixed(PrefixesOrEmpty(prefixes), InputList(inps)), Snapshot(), res)
    {
      var texts := match inps case One(t) => [t] case Many(ts) => ts;
      var transformed := TransformResponse(cg, resp);
      if transformed == Err(BadSource) {
        return Err(transformed.error);
      }
      srcLocation := Some(caller);
      if transformed.Err? {
        return Err(transformed.error);
      }
      res := GenerateTrainingData(lang, texts, transformed.value.0, transformed.value.1);
    }

    /** `ts(lang, test_name, rounds, prep)` (data_engine.py:445-477): record
        the caller's location and add one TestCase row whose rounds have
        their input and response tokenised. */
    method Ts(lang: string, name: string, rounds: seq<(string, string, string)>, prep: Option<string>, caller: Location)
      requires Valid()
      modifies this`srcLocation, this`tests, this`cntTs
      ensures Valid()
      ensures srcLocation == Some(caller)
      ensures tests == old(tests) + [TestCase(lang, moduleName, name, prep, Normalized(tok, lang, rounds), caller)]
      ensures cntTs == old(cntTs) + 1
    {
      srcLocation := Some(caller);
      var rs: seq<Round> := [];
      for i := 0 to |rounds|
        invariant rs == Normalized(tok, lang, rounds[..i])
      {
        rs := rs + [Round(Text.Join(tok.plain(rounds[i].0, lang), " "), Text.Join(tok.plain(rounds[i].1, lang), " "), rounds[i].2)];
        assert rs == Normalized(tok, lang, rounds[..i + 1]);
      }
      assert rounds[..|rounds|] == rounds;
      tests := tests + [TestCase(lang, moduleName, name, prep, rs, caller)];
      cntTs := cntTs + 1;
    }
  }
}
