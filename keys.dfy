/** The position map `mpos` of an expansion (zamiaai/data_engine.py:250-259):
    its keys, formatted with `'%s_%d_start'`, `'%s_%d_end'` and `'%s_%d_%s'`,
    and when two of them can coincide. */
module Keys {
  import opened Text
  import opened Macros

  /** Occurrence `k` of macro `n`. Variable keys and span keys share one
      namespace. */
  function StartKey(n: string, k: nat): string
  {
    n + "_" + NatToString(k) + "_start"
  }

  function EndKey(n: string, k: nat): string
  {
    n + "_" + NatToString(k) + "_end"
  }

  function VarKey(n: string, k: nat, v: string): string
  {
    n + "_" + NatToString(k) + "_" + v
  }

  /** Under one occurrence, distinct variable names have distinct keys. */
  lemma VarKeyTail(n: string, k: nat, a: string, b: string)
    requires VarKey(n, k, a) == VarKey(n, k, b)
    ensures a == b
  {
    var p := n + "_" + NatToString(k) + "_";
    assert VarKey(n, k, a) == p + a && VarKey(n, k, b) == p + b;
    assert a == (p + a)[|p|..] && b == (p + b)[|p|..];
  }

  /** An `mpos` value: a token position, or a variable's value. */
  datatype Entry = Pos(pos: nat) | Val(value: Value)

  type MPos = map<string, Entry>

  /** A variable name whose key cannot be mistaken for a span key. */
  predicate PlainVar(v: string)
  {
    '_' !in v && v != "start" && v != "end"
  }

  /** Splitting at the last `_`: if neither tail has a `_`, the heads and
      the tails agree. */
  lemma LastSegment(a: string, b: string, c: string, d: string)
    requires a + "_" + b == c + "_" + d
    requires '_' !in b && '_' !in d
    ensures a == c && b == d
  {
    var s := a + "_" + b;
    var t := c + "_" + d;
    assert s[|a|] == '_' && t[|c|] == '_';
    assert |b| == |d|;
    assert a == s[..|a|] && c == t[..|c|];
    assert b == s[|a| + 1..] && d == t[|c| + 1..];
  }

  lemma DigitsNoUnderscore(k: nat)
    ensures '_' !in NatToString(k)
  {
  }

  /** Splits `n_k_tail` into its three segments. */
  lemma KeySegments(n: string, k: nat, tail: string, n2: string, k2: nat, tail2: string)
    requires n + "_" + NatToString(k) + "_" + tail == n2 + "_" + NatToString(k2) + "_" + tail2
    requires '_' !in tail && '_' !in tail2
    ensures n == n2 && k == k2 && tail == tail2
  {
    LastSegment(n + "_" + NatToString(k), tail, n2 + "_" + NatToString(k2), tail2);
    DigitsNoUnderscore(k);
    DigitsNoUnderscore(k2);
    LastSegment(n, NatToString(k), n2, NatToString(k2));
    NatToStringInjective(k, k2);
  }

  lemma StartKeyForm(n: string, k: nat)
    ensures StartKey(n, k) == n + "_" + NatToString(k) + "_" + "start"
  {
    assert "_start" == "_" + "start";
    assert n + "_" + NatToString(k) + "_start" == n + "_" + NatToString(k) + ("_" + "start");
  }

  lemma EndKeyForm(n: string, k: nat)
    ensures EndKey(n, k) == n + "_" + NatToString(k) + "_" + "end"
  {
    assert "_end" == "_" + "end";
    assert n + "_" + NatToString(k) + "_end" == n + "_" + NatToString(k) + ("_" + "end");
  }

  /** Span keys name their macro and occurrence uniquely. */
  lemma StartKeyInjective(n: string, k: nat, n2: string, k2: nat)
    requires StartKey(n, k) == StartKey(n2, k2)
    ensures n == n2 && k == k2
  {
    StartKeyForm(n, k);
    StartKeyForm(n2, k2);
    KeySegments(n, k, "start", n2, k2, "start");
  }

  lemma StartNotEnd(n: string, k: nat, n2: string, k2: nat)
    ensures StartKey(n, k) != EndKey(n2, k2)
  {
    if StartKey(n, k) == EndKey(n2, k2) {
      StartKeyForm(n, k);
      EndKeyForm(n2, k2);
      KeySegments(n, k, "start", n2, k2, "end");
    }
  }

  /** A plain variable's key is never a span key. */
  lemma VarNotStart(n: string, k: nat, v: string, n2: string, k2: nat)
    requires PlainVar(v)
    ensures VarKey(n, k, v) != StartKey(n2, k2)
  {
    if VarKey(n, k, v) == StartKey(n2, k2) {
      StartKeyForm(n2, k2);
      KeySegments(n, k, v, n2, k2, "start");
    }
  }

  lemma VarNotEnd(n: string, k: nat, v: string, n2: string, k2: nat)
    requires PlainVar(v)
    ensures VarKey(n, k, v) != EndKey(n2, k2)
  {
    if VarKey(n, k, v) == EndKey(n2, k2) {
      EndKeyForm(n2, k2);
      KeySegments(n, k, v, n2, k2, "end");
    }
  }

  lemma EndKeyInjective(n: string, k: nat, n2: string, k2: nat)
    requires EndKey(n, k) == EndKey(n2, k2)
    ensures n == n2 && k == k2
  {
    EndKeyForm(n, k);
    EndKeyForm(n2, k2);
    KeySegments(n, k, "end", n2, k2, "end");
  }

  lemma VarKeyInjective(n: string, k: nat, v: string, n2: string, k2: nat, v2: string)
    requires VarKey(n, k, v) == VarKey(n2, k2, v2) && '_' !in v && '_' !in v2
    ensures n == n2 && k == k2 && v == v2
  {
    KeySegments(n, k, v, n2, k2, v2);
  }
}
