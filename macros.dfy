/** The data a macro expansion works on (zamiaai/data_engine.py).

    A variant is the dict a macro solution is stored as: variable name ->
    value, where a value is either raw text or an already tokenised list.
    It is kept as an association list so that the order in which the source
    iterates over the dict is part of the model. */
module Macros {
  import opened Wrappers
  import opened Text

  datatype Value = Str(s: string) | Toks(toks: seq<string>)

  datatype Binding = Binding(name: string, value: Value)

  type Variant = seq<Binding>

  /** The external tokenizer, `nltools.tokenizer.tokenize`, called with its
      default arguments (`plain`) and with `keep_punctuation=False`
      (`noPunct`); both take the text and the language. */
  datatype Tokenizer = Tokenizer(
    plain: (string, string) -> seq<string>,
    noPunct: (string, string) -> seq<string>)

  /** The tokens a value stands for: raw text is tokenised with the default
      tokenizer, a token list is used as it is. */
  function TokensOf(tok: Tokenizer, lang: string, v: Value): seq<string>
  {
    match v
    case Str(s) => tok.plain(s, lang)
    case Toks(t) => t
  }

  /** Position of the binding `r3[name]` reads (the first with that name). */
  function VarIndex(v: Variant, name: string): (i: Option<nat>)
    ensures i.Some? ==> i.value < |v| && v[i.value].name == name
    ensures i.Some? ==> forall j :: 0 <= j < i.value ==> v[j].name != name
    ensures i.None? ==> forall j :: 0 <= j < |v| ==> v[j].name != name
  {
    if |v| == 0 then None
    else if v[0].name == name then Some(0)
    else match VarIndex(v[1..], name)
      case None => None
      case Some(j) => Some(j + 1)
  }

  /** Python raises a KeyError for a variable the variant does not bind. */
  function GetVar(v: Variant, name: string): (r: Option<Value>)
    ensures r.Some? <==> exists j :: 0 <= j < |v| && v[j].name == name
  {
    match VarIndex(v, name)
    case None => None
    case Some(i) => Some(v[i].value)
  }

  /** `r3[name] = value` for a variable the variant already binds. */
  function SetVar(v: Variant, name: string, value: Value): (w: Variant)
    ensures |w| == |v|
    ensures forall j :: 0 <= j < |v| ==> w[j].name == v[j].name
    ensures GetVar(w, name) == if GetVar(v, name).Some? then Some(value) else None
  {
    match VarIndex(v, name)
    case None => v
    case Some(i) =>
      var w := v[i := Binding(name, value)];
      assert VarIndex(w, name) == Some(i) by { VarIndexSameNames(v, w, name); }
      w
  }

  lemma {:induction false} VarIndexSameNames(v: Variant, w: Variant, name: string)
    requires |v| == |w|
    requires forall j :: 0 <= j < |v| ==> w[j].name == v[j].name
    ensures VarIndex(w, name) == VarIndex(v, name)
  {
    if |v| > 0 && v[0].name != name {
      VarIndexSameNames(v[1..], w[1..], name);
    }
  }

  /** The only change the source ever makes to a variant value: raw text is
      replaced by its tokenisation (data_engine.py:252-254); a token list is
      never tokenised again. */
  predicate ValueRefines(tok: Tokenizer, lang: string, a: Value, b: Value)
  {
    b == a || (a.Str? && b == Toks(tok.plain(a.s, lang)))
  }

  predicate VariantRefines(tok: Tokenizer, lang: string, v: Variant, w: Variant)
  {
    |v| == |w| &&
    forall j :: 0 <= j < |v| ==> w[j].name == v[j].name && ValueRefines(tok, lang, v[j].value, w[j].value)
  }

  /** A store of variant slots only grows and only caches tokenisations. */
  predicate StoreRefines(tok: Tokenizer, lang: string, s: seq<Variant>, t: seq<Variant>)
  {
    |s| <= |t| && forall id :: 0 <= id < |s| ==> VariantRefines(tok, lang, s[id], t[id])
  }

  lemma ValueRefinesTokens(tok: Tokenizer, lang: string, a: Value, b: Value)
    requires ValueRefines(tok, lang, a, b)
    ensures TokensOf(tok, lang, a) == TokensOf(tok, lang, b)
  {
  }

  lemma StoreRefinesTransitive(tok: Tokenizer, lang: string, s: seq<Variant>, t: seq<Variant>, u: seq<Variant>)
    requires StoreRefines(tok, lang, s, t) && StoreRefines(tok, lang, t, u)
    ensures StoreRefines(tok, lang, s, u)
  {
    forall id | 0 <= id < |s|
      ensures VariantRefines(tok, lang, s[id], u[id])
    {
      assert VariantRefines(tok, lang, s[id], t[id]);
      assert VariantRefines(tok, lang, t[id], u[id]);
    }
  }

  /** A variable's tokens do not change when the store is refined. */
  lemma VarTokensStable(tok: Tokenizer, lang: string, v: Variant, w: Variant, name: string)
    requires VariantRefines(tok, lang, v, w)
    ensures GetVar(w, name).Some? <==> GetVar(v, name).Some?
    ensures GetVar(v, name).Some? ==>
      TokensOf(tok, lang, GetVar(w, name).value) == TokensOf(tok, lang, GetVar(v, name).value)
  {
    VarIndexSameNames(v, w, name);
  }

  /** Everything that aborts an expansion or a sample generation. */
  datatype Error =
    | MissingParen                             // `(` without a later `)`
    | BadCall(call: string)                    // `{...}` not of the form `name:var`
    | UnknownMacro(name: string, lang: string) // neither named nor implicit
    | MissingVar(name: string, varName: string)    // KeyError on `r3[vn]`
    | NoSourceLocation                         // `self.src_location` read before it is set
    | NoFunctionDef                            // a response function without a `def`
    | BadSource                                // `ast.parse` rejects the response source
    | NoNamedMacrosMod                         // `self.named_macros_mod` read, but never assigned
}
