/** `DataEngine.compute_named_macros` (zamiaai/data_engine.py:88-97): the
    per-module macro tables `named_macros_mod[module][lang][name]` merged into
    one table `named_macros[lang][name]`, the variant lists of a name
    concatenated in module order. Each dictionary is a sequence of its
    entries in iteration order. */
module NamedTables {
  import opened Macros

  type LangTable = seq<(string, seq<Variant>)>
  type ModuleTable = seq<(string, LangTable)>
  type Tables = map<string, map<string, seq<Variant>>>

  /** `named_macros[lang][name]`, or nothing when the entry is missing. */
  function Get(m: Tables, lang: string, name: string): seq<Variant>
  {
    if lang in m && name in m[lang] then m[lang][name] else []
  }

  /** The innermost loop (data_engine.py:94-97), over the names of one
      language of one module. */
  function MergeLang(m: Tables, lang: string, t: LangTable): (r: Tables)
    requires lang in m
    ensures r.Keys == m.Keys
  {
    if |t| == 0 then m
    else
      var m1 := MergeLang(m, lang, t[..|t| - 1]);
      m1[lang := m1[lang][t[|t| - 1].0 := Get(m1, lang, t[|t| - 1].0) + t[|t| - 1].1]]
  }

  /** One turn of the middle loop (data_engine.py:92-97). */
  function MergeEntry(m: Tables, entry: (string, LangTable)): Tables
  {
    MergeLang(if entry.0 in m then m else m[entry.0 := map[]], entry.0, entry.1)
  }

  /** The middle loop, over the languages of one module. */
  function MergeModule(m: Tables, t: ModuleTable): Tables
  {
    if |t| == 0 then m else MergeEntry(MergeModule(m, t[..|t| - 1]), t[|t| - 1])
  }

  /** The whole of `compute_named_macros`, starting from `{}`. */
  function MergeAll(mods: seq<(string, ModuleTable)>): Tables
  {
    if |mods| == 0 then map[] else MergeModule(MergeAll(mods[..|mods| - 1]), mods[|mods| - 1].1)
  }

  /** The variants listed under `name` in one language table, in order. */
  function GatherLang(t: LangTable, name: string): seq<Variant>
  {
    if |t| == 0 then []
    else GatherLang(t[..|t| - 1], name) + (if t[|t| - 1].0 == name then t[|t| - 1].1 else [])
  }

  /** The variants listed under `lang` and `name` in one module table. */
  function GatherModule(t: ModuleTable, lang: string, name: string): seq<Variant>
  {
    if |t| == 0 then []
    else GatherModule(t[..|t| - 1], lang, name) + (if t[|t| - 1].0 == lang then GatherLang(t[|t| - 1].1, name) else [])
  }

  /** The variants listed under `lang` and `name` anywhere, module by module. */
  function Gather(mods: seq<(string, ModuleTable)>, lang: string, name: string): seq<Variant>
  {
    if |mods| == 0 then []
    else Gather(mods[..|mods| - 1], lang, name) + GatherModule(mods[|mods| - 1].1, lang, name)
  }

  predicate InLang(t: LangTable, name: string)
  {
    exists k :: 0 <= k < |t| && t[k].0 == name
  }

  predicate InModule(t: ModuleTable, lang: string, name: string)
  {
    exists j :: 0 <= j < |t| && t[j].0 == lang && InLang(t[j].1, name)
  }

  predicate InAny(mods: seq<(string, ModuleTable)>, lang: string, name: string)
  {
    exists i :: 0 <= i < |mods| && InModule(mods[i].1, lang, name)
  }

  function LangsOf(t: ModuleTable): set<string>
  {
    set j | 0 <= j < |t| :: t[j].0
  }

  function AllLangs(mods: seq<(string, ModuleTable)>): set<string>
  {
    set i, j | 0 <= i < |mods| && 0 <= j < |mods[i].1| :: mods[i].1[j].0
  }

  /** Merging a language table leaves the other languages alone, adds the
      table's names to that language, and appends each name's variants. */
  lemma {:induction false} MergeLangSpec(m: Tables, lang: string, t: LangTable)
    requires lang in m
    ensures forall l :: l in m && l != lang ==> MergeLang(m, lang, t)[l] == m[l]
    ensures forall name :: name in MergeLang(m, lang, t)[lang] <==> name in m[lang] || InLang(t, name)
    ensures forall l, name ::
      Get(MergeLang(m, lang, t), l, name) == Get(m, l, name) + (if l == lang then GatherLang(t, name) else [])
  {
    if |t| > 0 {
      var n := |t| - 1;
      MergeLangSpec(m, lang, t[..n]);
      forall name ensures InLang(t, name) <==> InLang(t[..n], name) || t[n].0 == name {
        InLangSnoc(t, name);
      }
      forall l, name
        ensures Get(MergeLang(m, lang, t), l, name) == Get(m, l, name) + (if l == lang then GatherLang(t, name) else [])
      {
        MergeLangGet(m, lang, t, l, name);
      }
    }
  }

  /** One more entry of the language table appends its variants to the
      entry's own name and to nothing else. */
  lemma MergeLangGet(m: Tables, lang: string, t: LangTable, l: string, name: string)
    requires lang in m && |t| > 0
    requires Get(MergeLang(m, lang, t[..|t| - 1]), l, name) ==
      Get(m, l, name) + (if l == lang then GatherLang(t[..|t| - 1], name) else [])
    ensures Get(MergeLang(m, lang, t), l, name) == Get(m, l, name) + (if l == lang then GatherLang(t, name) else [])
  {
    var n := |t| - 1;
    var m1 := MergeLang(m, lang, t[..n]);
    if l == lang && name == t[n].0 {
      var g := Get(m, l, name);
      var h := GatherLang(t[..n], name);
      assert Get(MergeLang(m, lang, t), l, name) == g + h + t[n].1;
      assert GatherLang(t, name) == h + t[n].1;
      assert g + h + t[n].1 == g + (h + t[n].1);
    } else if l == lang {
      assert GatherLang(t, name) == GatherLang(t[..n], name) + [];
      assert Get(MergeLang(m, lang, t), l, name) == Get(m1, l, name);
    } else {
      assert Get(MergeLang(m, lang, t), l, name) == Get(m1, l, name);
    }
  }

  lemma InLangSnoc(t: LangTable, name: string)
    requires |t| > 0
    ensures InLang(t, name) <==> InLang(t[..|t| - 1], name) || t[|t| - 1].0 == name
  {
    var n := |t| - 1;
    if InLang(t, name) {
      var k :| 0 <= k < |t| && t[k].0 == name;
      if k < n {
        assert t[..n][k].0 == name;
      }
    }
    if InLang(t[..n], name) {
      var k :| 0 <= k < n && t[..n][k].0 == name;
      assert t[k].0 == name;
    }
  }

  lemma LangsOfSnoc(t: ModuleTable)
    requires |t| > 0
    ensures LangsOf(t) == LangsOf(t[..|t| - 1]) + {t[|t| - 1].0}
  {
    assert forall j :: 0 <= j < |t| - 1 ==> t[..|t| - 1][j] == t[j];
  }

  lemma InModuleSnoc(t: ModuleTable, l: string, name: string)
    requires |t| > 0
    ensures InModule(t, l, name) <==> InModule(t[..|t| - 1], l, name) || (t[|t| - 1].0 == l && InLang(t[|t| - 1].1, name))
  {
    var n := |t| - 1;
    if InModule(t, l, name) {
      var j :| 0 <= j < |t| && t[j].0 == l && InLang(t[j].1, name);
      if j < n {
        assert t[..n][j] == t[j];
      }
    }
    if InModule(t[..n], l, name) {
      var j :| 0 <= j < n && t[..n][j].0 == l && InLang(t[..n][j].1, name);
      assert t[j] == t[..n][j];
    }
  }

  /** Merging one module's table, at one (language, name): the language is
      a key when it was one or the module lists it, the name is there when it
      was or the module lists it under that language, and the module's
      variants for it are appended. */
  lemma MergeModuleAt(m: Tables, t: ModuleTable, l: string, name: string)
    ensures l in MergeModule(m, t) <==> l in m || l in LangsOf(t)
    ensures l in MergeModule(m, t) ==> (name in MergeModule(m, t)[l] <==> (l in m && name in m[l]) || InModule(t, l, name))
    ensures Get(MergeModule(m, t), l, name) == Get(m, l, name) + GatherModule(t, l, name)
  {
    MergeModuleKeys(m, t, l);
    MergeModuleNames(m, t, l, name);
    MergeModuleGet(m, t, l, name);
  }

  lemma {:induction false} MergeModuleKeys(m: Tables, t: ModuleTable, l: string)
    ensures l in MergeModule(m, t) <==> l in m || l in LangsOf(t)
  {
    if |t| > 0 {
      MergeModuleKeys(m, t[..|t| - 1], l);
      MergeEntryAt(MergeModule(m, t[..|t| - 1]), t[|t| - 1], l, "");
      LangsOfSnoc(t);
    }
  }

  lemma {:induction false} MergeModuleNames(m: Tables, t: ModuleTable, l: string, name: string)
    ensures l in MergeModule(m, t) ==> (name in MergeModule(m, t)[l] <==> (l in m && name in m[l]) || InModule(t, l, name))
  {
    if |t| > 0 {
      MergeModuleNames(m, t[..|t| - 1], l, name);
      MergeModuleKeys(m, t[..|t| - 1], l);
      MergeEntryAt(MergeModule(m, t[..|t| - 1]), t[|t| - 1], l, name);
      InModuleSnoc(t, l, name);
    }
  }

  lemma {:induction false} MergeModuleGet(m: Tables, t: ModuleTable, l: string, name: string)
    ensures Get(MergeModule(m, t), l, name) == Get(m, l, name) + GatherModule(t, l, name)
  {
    if |t| > 0 {
      MergeModuleGet(m, t[..|t| - 1], l, name);
      MergeEntryAt(MergeModule(m, t[..|t| - 1]), t[|t| - 1], l, name);
      assert Get(m, l, name) + GatherModule(t[..|t| - 1], l, name) + (if t[|t| - 1].0 == l then GatherLang(t[|t| - 1].1, name) else []) ==
             Get(m, l, name) + GatherModule(t, l, name);
    }
  }

  lemma MergeEntryAt(m: Tables, entry: (string, LangTable), l: string, name: string)
    ensures l in MergeEntry(m, entry) <==> l in m || l == entry.0
    ensures l in MergeEntry(m, entry) ==>
      (name in MergeEntry(m, entry)[l] <==> (l in m && name in m[l]) || (l == entry.0 && InLang(entry.1, name)))
    ensures Get(MergeEntry(m, entry), l, name) == Get(m, l, name) + (if l == entry.0 then GatherLang(entry.1, name) else [])
  {
    var m0 := if entry.0 in m then m else m[entry.0 := map[]];
    MergeLangSpec(m0, entry.0, entry.1);
    assert Get(m0, l, name) == Get(m, l, name);
  }

  lemma AllLangsSnoc(mods: seq<(string, ModuleTable)>)
    requires |mods| > 0
    ensures AllLangs(mods) == AllLangs(mods[..|mods| - 1]) + LangsOf(mods[|mods| - 1].1)
  {
    var n := |mods| - 1;
    forall l | l in AllLangs(mods) ensures l in AllLangs(mods[..n]) + LangsOf(mods[n].1) {
      var i, j :| 0 <= i < |mods| && 0 <= j < |mods[i].1| && mods[i].1[j].0 == l;
      if i < n {
        assert mods[..n][i] == mods[i];
      }
    }
    forall l | l in AllLangs(mods[..n]) ensures l in AllLangs(mods) {
      var i, j :| 0 <= i < n && 0 <= j < |mods[..n][i].1| && mods[..n][i].1[j].0 == l;
      assert mods[i] == mods[..n][i];
    }
  }

  lemma InAnySnoc(mods: seq<(string, ModuleTable)>, l: string, name: string)
    requires |mods| > 0
    ensures InAny(mods, l, name) <==> InAny(mods[..|mods| - 1], l, name) || InModule(mods[|mods| - 1].1, l, name)
  {
    var n := |mods| - 1;
    if InAny(mods, l, name) {
      var i :| 0 <= i < |mods| && InModule(mods[i].1, l, name);
      if i < n {
        assert mods[..n][i] == mods[i];
      }
    }
    if InAny(mods[..n], l, name) {
      var i :| 0 <= i < n && InModule(mods[..n][i].1, l, name);
      assert mods[i] == mods[..n][i];
    }
  }

  lemma {:induction false} MergeAllAt(mods: seq<(string, ModuleTable)>, l: string, name: string)
    ensures l in MergeAll(mods) <==> l in AllLangs(mods)
    ensures l in MergeAll(mods) ==> (name in MergeAll(mods)[l] <==> InAny(mods, l, name))
    ensures Get(MergeAll(mods), l, name) == Gather(mods, l, name)
  {
    if |mods| > 0 {
      var n := |mods| - 1;
      MergeAllAt(mods[..n], l, name);
      MergeModuleAt(MergeAll(mods[..n]), mods[n].1, l, name);
      AllLangsSnoc(mods);
      InAnySnoc(mods, l, name);
    }
  }

  /** `compute_named_macros` yields a table whose languages are exactly those
      of any module, whose names under a language are exactly those any
      module lists for it, and whose variant list for a (language, name) is
      the concatenation, in module order, of every module's list for it. */
  lemma MergeAllSpec(mods: seq<(string, ModuleTable)>)
    ensures MergeAll(mods).Keys == AllLangs(mods)
    ensures forall l, name :: l in MergeAll(mods) ==> (name in MergeAll(mods)[l] <==> InAny(mods, l, name))
    ensures forall l, name :: Get(MergeAll(mods), l, name) == Gather(mods, l, name)
  {
    forall l, name
      ensures l in MergeAll(mods) ==> (name in MergeAll(mods)[l] <==> InAny(mods, l, name))
      ensures Get(MergeAll(mods), l, name) == Gather(mods, l, name)
    {
      MergeAllAt(mods, l, name);
    }
    forall l ensures l in MergeAll(mods).Keys <==> l in AllLangs(mods) {
      MergeAllAt(mods, l, "");
    }
  }
}
