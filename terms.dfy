/** The Prolog terms the kernel helpers of ai_kernal.py read, and the
    errors those reads raise. The term classes themselves (zamiaprolog's
    `Predicate`, `StringLiteral`, `ListLiteral`, `NumberLiteral`) are not
    part of this model: each attribute the kernel reads is taken to exist on
    one class only (`.name` on predicates, `.s` on string literals, `.l` on
    list literals), and reading it from any other term raises. */
module Terms {
  import opened Wrappers

  datatype Term =
    | Predicate(name: string, args: seq<Term>)
    | StringLiteral(s: string)
    | ListLiteral(l: seq<Term>)
    | NumberLiteral(f: int)

  /** What the helpers raise. */
  datatype KError =
    | NoName          // `.name` of a term that is not a predicate
    | NoString        // `.s` of a term that is not a string literal
    | NoList          // `.l` of a term that is not a list literal
    | NoTokens        // `reversed(None)`: an IAS without a `tokens` fact
    | EmptyPred       // `p[0]` of an empty predicate string
    | IndexOutOfRange // `data[i]` past the end of a list
    | TrainDataLength // training data not a multiple of 4 long
    | TestDataLength  // test data not a multiple of 3 long

  /** `t.name`. */
  function NameOf(t: Term): (r: Result<string, KError>)
    ensures r.Ok? <==> t.Predicate?
    ensures r.Ok? ==> r.value == t.name
  {
    if t.Predicate? then Ok(t.name) else Err(NoName)
  }

  /** `t.s`. */
  function StrOf(t: Term): (r: Result<string, KError>)
    ensures r.Ok? <==> t.StringLiteral?
    ensures r.Ok? ==> r.value == t.s
  {
    if t.StringLiteral? then Ok(t.s) else Err(NoString)
  }

  /** `t.l`. */
  function ListOf(t: Term): (r: Result<seq<Term>, KError>)
    ensures r.Ok? <==> t.ListLiteral?
    ensures r.Ok? ==> r.value == t.l
  {
    if t.ListLiteral? then Ok(t.l) else Err(NoList)
  }
}
