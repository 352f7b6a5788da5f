/** First phase of `DataEngine._expand_macros` (zamiaai/data_engine.py:152-193):
    every inline alternation `(a|b|...)` becomes a call `{MACRO_k:W}` of an
    implicit macro whose variants bind `W` to the tokenised alternatives; the
    rewritten text is then cut at `{` and `}` into literal parts (even
    indices) and macro calls (odd indices). */
module Template {
  import opened Wrappers
  import opened Text
  import opened Macros

  const IMPLICIT_VAR := "W"

  /** `'MACRO_%d' % k`. */
  function ImplicitName(k: nat): string
  {
    "MACRO_" + NatToString(k)
  }

  lemma ImplicitNameInjective(a: nat, b: nat)
    requires ImplicitName(a) == ImplicitName(b)
    ensures a == b
  {
    assert NatToString(a) == ImplicitName(a)[6..];
    assert NatToString(b) == ImplicitName(b)[6..];
    NatToStringInjective(a, b);
  }

  /** The call that replaces the k-th group. */
  function CallSite(k: nat): string
  {
    "{" + ImplicitName(k) + ":" + IMPLICIT_VAR + "}"
  }

  /** One variant `{'W': tokenize(alt, keep_punctuation=False)}` per
      `|`-separated alternative, in order. */
  function AltVariants(tok: Tokenizer, lang: string, body: string): (vs: seq<Variant>)
    ensures |vs| == |Split(body, '|')| >= 1
    ensures forall i :: 0 <= i < |vs| ==>
      vs[i] == [Binding(IMPLICIT_VAR, Toks(tok.noPunct(Split(body, '|')[i], lang)))]
  {
    var alts := Split(body, '|');
    seq(|alts|, i requires 0 <= i < |alts| => [Binding(IMPLICIT_VAR, Toks(tok.noPunct(alts[i], lang)))])
  }

  type Implicit = map<string, seq<Variant>>

  /** The dict `implicit_macros` after the groups `bodies` (in order): the
      g-th becomes MACRO_g. */
  function ImplicitOf(tok: Tokenizer, lang: string, bodies: seq<string>): Implicit
  {
    if |bodies| == 0 then map[]
    else
      var n := |bodies| - 1;
      ImplicitOf(tok, lang, bodies[..n])[ImplicitName(n) := AltVariants(tok, lang, bodies[n])]
  }

  /** The scanner from index `i` of `txt`, with the rewritten text `txt2` and
      the bodies of the groups found so far. */
  function ScanFrom(txt: string, i: nat, txt2: string, bodies: seq<string>): Result<(string, seq<string>), Error>
    requires i <= |txt|
    decreases |txt| - i
  {
    if i == |txt| then Ok((txt2, bodies))
    else if txt[i] == '(' then
      var j := Find(txt[i + 1..], ')');
      if j < 0 then Err(MissingParen)
      else ScanFrom(txt, i + j + 2, txt2 + CallSite(|bodies|), bodies + [txt[i + 1..i + j + 1]])
    else ScanFrom(txt, i + 1, txt2 + [txt[i]], bodies)
  }

  /** The whole scan: the rewritten text and the implicit macros, or the
      error for a `(` that is never closed. */
  function Scan(tok: Tokenizer, lang: string, txt: string): Result<(string, Implicit), Error>
  {
    var s :- ScanFrom(txt, 0, "", []);
    Ok((s.0, ImplicitOf(tok, lang, s.1)))
  }

  // The source's scanning loop: an index `i` over `txt`, the rewritten text
  // `txt2` and the dict `implicit_macros`, whose size names the next macro.
  method ScanAlternations(tok: Tokenizer, lang: string, txt: string) returns (res: Result<(string, Implicit), Error>)
    ensures res == Scan(tok, lang, txt)
  {
    var implicit: Implicit := map[];
    var txt2 := "";
    var i := 0;
    ghost var bodies: seq<string> := [];
    while i < |txt|
      invariant 0 <= i <= |txt|
      invariant implicit == ImplicitOf(tok, lang, bodies) && |implicit| == |bodies|
      invariant ScanFrom(txt, i, txt2, bodies) == ScanFrom(txt, 0, "", [])
      decreases |txt| - i
    {
      if txt[i] == '(' {
        var j := Find(txt[i + 1..], ')');
        if j < 0 {
          return Err(MissingParen);
        }
        var macroName := ImplicitName(|implicit|);
        var variants := AltVariantsLoop(tok, lang, txt[i + 1..i + j + 1]);
        ImplicitOfSnoc(tok, lang, bodies, txt[i + 1..i + j + 1]);
        implicit := implicit[macroName := variants];
        txt2 := txt2 + ("{" + macroName + ":" + IMPLICIT_VAR + "}");
        bodies := bodies + [txt[i + 1..i + j + 1]];
        i := i + j + 2;
      } else {
        txt2 := txt2 + [txt[i]];
        i := i + 1;
      }
    }
    res := Ok((txt2, implicit));
  }

  /** Registering one more group adds exactly one macro. */
  lemma ImplicitOfSnoc(tok: Tokenizer, lang: string, bodies: seq<string>, b: string)
    requires |ImplicitOf(tok, lang, bodies)| == |bodies|
    ensures ImplicitOf(tok, lang, bodies + [b]) == ImplicitOf(tok, lang, bodies)[ImplicitName(|bodies|) := AltVariants(tok, lang, b)]
    ensures |ImplicitOf(tok, lang, bodies + [b])| == |bodies| + 1
  {
    assert (bodies + [b])[..|bodies|] == bodies;
    if ImplicitName(|bodies|) in ImplicitOf(tok, lang, bodies) {
      ImplicitOfKeys(tok, lang, bodies, ImplicitName(|bodies|));
      var g :| 0 <= g < |bodies| && ImplicitName(|bodies|) == ImplicitName(g);
      ImplicitNameInjective(g, |bodies|);
    }
  }

  /** The implicit macros are named MACRO_0 ... MACRO_(n-1) and nothing else. */
  lemma {:induction false} ImplicitOfKeys(tok: Tokenizer, lang: string, bodies: seq<string>, name: string)
    requires name in ImplicitOf(tok, lang, bodies)
    ensures exists g :: 0 <= g < |bodies| && name == ImplicitName(g)
  {
    var n := |bodies| - 1;
    if name != ImplicitName(n) {
      ImplicitOfKeys(tok, lang, bodies[..n], name);
      var g :| 0 <= g < n && name == ImplicitName(g);
      assert 0 <= g < |bodies|;
    }
  }

  /** MACRO_g holds exactly the alternatives of the g-th group. */
  lemma {:induction false} ImplicitOfAt(tok: Tokenizer, lang: string, bodies: seq<string>, g: nat)
    requires g < |bodies|
    ensures ImplicitName(g) in ImplicitOf(tok, lang, bodies)
    ensures ImplicitOf(tok, lang, bodies)[ImplicitName(g)] == AltVariants(tok, lang, bodies[g])
  {
    var n := |bodies| - 1;
    if g < n {
      ImplicitOfAt(tok, lang, bodies[..n], g);
      if ImplicitName(g) == ImplicitName(n) {
        ImplicitNameInjective(g, n);
      }
    }
  }

  // `for s in macro_s.split('|'): implicit_macros[macro_name].append({'W': ...})`
  method AltVariantsLoop(tok: Tokenizer, lang: string, body: string) returns (vs: seq<Variant>)
    ensures vs == AltVariants(tok, lang, body)
  {
    var alts := Split(body, '|');
    vs := [];
    for n := 0 to |alts|
      invariant |vs| == n
      invariant forall m :: 0 <= m < n ==> vs[m] == [Binding(IMPLICIT_VAR, Toks(tok.noPunct(alts[m], lang)))]
    {
      vs := vs + [[Binding(IMPLICIT_VAR, Toks(tok.noPunct(alts[n], lang)))]];
    }
    ghost var spec := AltVariants(tok, lang, body);
    assert |spec| == |vs|;
    assert forall m :: 0 <= m < |vs| ==> vs[m] == spec[m];
  }

  /** An independent view of a template: plain characters and `(...)` groups. */
  datatype Chunk = Char(c: char) | Group(body: string)

  /** A character chunk is not `(`, a group's body holds no `)`. */
  predicate ChunkOk(c: Chunk)
  {
    match c
    case Char(x) => x != '('
    case Group(b) => ')' !in b
  }

  predicate WellFormed(chunks: seq<Chunk>)
  {
    |chunks| == 0 || (ChunkOk(chunks[0]) && WellFormed(chunks[1..]))
  }

  function Flatten(chunks: seq<Chunk>): string
  {
    if |chunks| == 0 then ""
    else
      var head := match chunks[0] case Char(c) => [c] case Group(b) => "(" + b + ")";
      head + Flatten(chunks[1..])
  }

  /** The text with the g-th group replaced by the call of MACRO_(k+g). */
  function Rewritten(chunks: seq<Chunk>, k: nat): string
  {
    if |chunks| == 0 then ""
    else match chunks[0]
      case Char(c) => [c] + Rewritten(chunks[1..], k)
      case Group(_) => CallSite(k) + Rewritten(chunks[1..], k + 1)
  }

  function Bodies(chunks: seq<Chunk>): seq<string>
  {
    if |chunks| == 0 then []
    else match chunks[0]
      case Char(_) => Bodies(chunks[1..])
      case Group(b) => [b] + Bodies(chunks[1..])
  }

  lemma SliceChar(txt: string, i: nat, c: char, tail: string)
    requires i <= |txt| && txt[i..] == [c] + tail
    ensures i < |txt| && txt[i] == c && txt[i + 1..] == tail
  {
    assert txt[i..][0] == c;
    assert txt[i..][1..] == tail;
  }

  lemma SliceGroup(txt: string, i: nat, b: string, tail: string)
    requires i <= |txt| && txt[i..] == "(" + b + ")" + tail
    ensures i + |b| + 2 <= |txt| && txt[i] == '(' && txt[i + |b| + 1] == ')'
    ensures txt[i + 1..i + |b| + 1] == b && txt[i + |b| + 2..] == tail
  {
    var s := txt[i..];
    assert s[0] == '(' && s[|b| + 1] == ')';
    assert s[1..|b| + 1] == b;
    assert s[|b| + 2..] == tail;
  }

  /** The chunks occur in `txt` from index `i` on, read position by position. */
  predicate At(txt: string, i: nat, chunks: seq<Chunk>)
    decreases |chunks|
  {
    if |chunks| == 0 then i <= |txt|
    else match chunks[0]
      case Char(c) => i < |txt| && txt[i] == c && c != '(' && At(txt, i + 1, chunks[1..])
      case Group(b) =>
        i + |b| + 2 <= |txt| && txt[i] == '(' && txt[i + 1..i + |b| + 1] == b && ')' !in b &&
        txt[i + |b| + 1] == ')' && At(txt, i + |b| + 2, chunks[1..])
  }

  /** The length of the flattened chunks. */
  function Width(chunks: seq<Chunk>): nat
  {
    if |chunks| == 0 then 0
    else match chunks[0]
      case Char(_) => 1 + Width(chunks[1..])
      case Group(b) => |b| + 2 + Width(chunks[1..])
  }

  /** From a point where the chunks occur, the scanner appends the rewritten
      chunks and their groups' bodies and carries on after them. */
  lemma {:induction false} ScanChunks(txt: string, i: nat, chunks: seq<Chunk>, txt2: string, bodies: seq<string>)
    requires At(txt, i, chunks)
    ensures i + Width(chunks) <= |txt|
    ensures ScanFrom(txt, i, txt2, bodies) ==
      ScanFrom(txt, i + Width(chunks), txt2 + Rewritten(chunks, |bodies|), bodies + Bodies(chunks))
    decreases |chunks|, 1
  {
    if |chunks| == 0 {
      assert txt2 + "" == txt2 && bodies + [] == bodies;
    } else if chunks[0].Char? {
      AtChar(txt, i, chunks);
      ScanChunksChar(txt, i, chunks, txt2, bodies);
    } else {
      AtGroup(txt, i, chunks);
      ScanChunksGroup(txt, i, chunks, txt2, bodies);
    }
  }

  /** What `At` says about a leading character. */
  lemma AtChar(txt: string, i: nat, chunks: seq<Chunk>)
    requires At(txt, i, chunks) && |chunks| > 0 && chunks[0].Char?
    ensures i < |txt| && txt[i] == chunks[0].c && chunks[0].c != '(' && At(txt, i + 1, chunks[1..])
    ensures i + Width(chunks) <= |txt|
  {
    AtWidth(txt, i + 1, chunks[1..]);
  }

  /** What `At` says about a leading group. */
  lemma AtGroup(txt: string, i: nat, chunks: seq<Chunk>)
    requires At(txt, i, chunks) && |chunks| > 0 && chunks[0].Group?
    ensures i + |chunks[0].body| + 2 <= |txt| && txt[i] == '(' && ')' !in chunks[0].body
    ensures txt[i + 1..i + |chunks[0].body| + 1] == chunks[0].body && txt[i + |chunks[0].body| + 1] == ')'
    ensures At(txt, i + |chunks[0].body| + 2, chunks[1..])
    ensures i + Width(chunks) <= |txt|
  {
    AtWidth(txt, i + |chunks[0].body| + 2, chunks[1..]);
  }

  /** Chunks that occur fit in the text. */
  lemma {:induction false} AtWidth(txt: string, i: nat, chunks: seq<Chunk>)
    requires At(txt, i, chunks)
    ensures i + Width(chunks) <= |txt|
    decreases |chunks|
  {
    if |chunks| > 0 {
      match chunks[0]
      case Char(_) => AtWidth(txt, i + 1, chunks[1..]);
      case Group(b) => AtWidth(txt, i + |b| + 2, chunks[1..]);
    }
  }

  lemma {:induction false} ScanChunksChar(txt: string, i: nat, chunks: seq<Chunk>, txt2: string, bodies: seq<string>)
    requires |chunks| > 0 && chunks[0].Char?
    requires i < |txt| && txt[i] == chunks[0].c && chunks[0].c != '(' && At(txt, i + 1, chunks[1..])
    requires i + Width(chunks) <= |txt|
    ensures ScanFrom(txt, i, txt2, bodies) ==
      ScanFrom(txt, i + Width(chunks), txt2 + Rewritten(chunks, |bodies|), bodies + Bodies(chunks))
    decreases |chunks|, 0
  {
    CharTail(txt, i, chunks, txt2, bodies);
    ScanChunks(txt, i + 1, chunks[1..], txt2 + [chunks[0].c], bodies);
    ScanCharStep(txt, i, chunks[0].c, txt2, bodies);
  }

  lemma {:induction false} ScanChunksGroup(txt: string, i: nat, chunks: seq<Chunk>, txt2: string, bodies: seq<string>)
    requires |chunks| > 0 && chunks[0].Group?
    requires i + |chunks[0].body| + 2 <= |txt| && txt[i] == '(' && ')' !in chunks[0].body
    requires txt[i + 1..i + |chunks[0].body| + 1] == chunks[0].body && txt[i + |chunks[0].body| + 1] == ')'
    requires At(txt, i + |chunks[0].body| + 2, chunks[1..])
    requires i + Width(chunks) <= |txt|
    ensures ScanFrom(txt, i, txt2, bodies) ==
      ScanFrom(txt, i + Width(chunks), txt2 + Rewritten(chunks, |bodies|), bodies + Bodies(chunks))
    decreases |chunks|, 0
  {
    GroupTail(txt, i, chunks, txt2, bodies);
    ScanChunks(txt, i + |chunks[0].body| + 2, chunks[1..], txt2 + CallSite(|bodies|), bodies + [chunks[0].body]);
    ScanGroupStep(txt, i, chunks[0].body, txt2, bodies);
  }

  /** The scanner's step over a plain character. */
  lemma ScanCharStep(txt: string, i: nat, c: char, txt2: string, bodies: seq<string>)
    requires i < |txt| && txt[i] == c && c != '('
    ensures ScanFrom(txt, i, txt2, bodies) == ScanFrom(txt, i + 1, txt2 + [c], bodies)
  {
  }

  /** After a leading character, the rest's results are the whole's. */
  lemma CharTail(txt: string, i: nat, chunks: seq<Chunk>, txt2: string, bodies: seq<string>)
    requires |chunks| > 0 && chunks[0].Char? && i + Width(chunks) <= |txt|
    ensures var rest := chunks[1..];
      ScanFrom(txt, i + 1 + Width(rest), txt2 + [chunks[0].c] + Rewritten(rest, |bodies|), bodies + Bodies(rest)) ==
      ScanFrom(txt, i + Width(chunks), txt2 + Rewritten(chunks, |bodies|), bodies + Bodies(chunks))
  {
    var rest := chunks[1..];
    CharOutput(chunks, txt2, bodies);
    SameScan(txt, i + 1 + Width(rest), txt2 + [chunks[0].c] + Rewritten(rest, |bodies|), bodies + Bodies(rest),
      i + Width(chunks), txt2 + Rewritten(chunks, |bodies|), bodies + Bodies(chunks));
  }

  /** After a leading group, the rest's results are the whole's. */
  lemma GroupTail(txt: string, i: nat, chunks: seq<Chunk>, txt2: string, bodies: seq<string>)
    requires |chunks| > 0 && chunks[0].Group? && i + Width(chunks) <= |txt|
    ensures var rest := chunks[1..]; var b1 := bodies + [chunks[0].body];
      ScanFrom(txt, i + |chunks[0].body| + 2 + Width(rest), txt2 + CallSite(|bodies|) + Rewritten(rest, |b1|), b1 + Bodies(rest)) ==
      ScanFrom(txt, i + Width(chunks), txt2 + Rewritten(chunks, |bodies|), bodies + Bodies(chunks))
  {
    var rest := chunks[1..];
    var b1 := bodies + [chunks[0].body];
    GroupOutput(chunks, txt2, bodies);
    SameScan(txt, i + |chunks[0].body| + 2 + Width(rest), txt2 + CallSite(|bodies|) + Rewritten(rest, |b1|), b1 + Bodies(rest),
      i + Width(chunks), txt2 + Rewritten(chunks, |bodies|), bodies + Bodies(chunks));
  }

  /** The scanner's step over a closed group. */
  lemma ScanGroupStep(txt: string, i: nat, b: string, txt2: string, bodies: seq<string>)
    requires i + |b| + 2 <= |txt| && txt[i] == '(' && txt[i + 1..i + |b| + 1] == b && ')' !in b
    requires txt[i + |b| + 1] == ')'
    ensures ScanFrom(txt, i, txt2, bodies) == ScanFrom(txt, i + |b| + 2, txt2 + CallSite(|bodies|), bodies + [b])
  {
    var j := |b|;
    assert Find(txt[i + 1..], ')') == j by {
      ClosingAt(txt, i + 1, b);
    }
    assert ScanFrom(txt, i, txt2, bodies) ==
      ScanFrom(txt, i + j + 2, txt2 + CallSite(|bodies|), bodies + [txt[i + 1..i + j + 1]]);
    SameScan(txt, i + j + 2, txt2 + CallSite(|bodies|), bodies + [txt[i + 1..i + j + 1]],
      i + |b| + 2, txt2 + CallSite(|bodies|), bodies + [b]);
  }

  /** The first `)` from index `i` on closes a body without `)`. */
  lemma ClosingAt(txt: string, i: nat, b: string)
    requires i + |b| < |txt| && txt[i..i + |b|] == b && ')' !in b && txt[i + |b|] == ')'
    ensures Find(txt[i..], ')') == |b|
  {
    assert txt[i..] == b + [')'] + txt[i + |b| + 1..];
    FindAfterPrefix(b, ')', txt[i + |b| + 1..]);
  }

  /** The scanner is a function of its arguments' values. */
  lemma SameScan(txt: string, i1: nat, t1: string, b1: seq<string>, i2: nat, t2: string, b2: seq<string>)
    requires i1 == i2 && t1 == t2 && b1 == b2 && i1 <= |txt|
    ensures ScanFrom(txt, i1, t1, b1) == ScanFrom(txt, i2, t2, b2)
  {
  }

  /** What a leading character contributes to the scanner's output. */
  lemma CharOutput(chunks: seq<Chunk>, txt2: string, bodies: seq<string>)
    requires |chunks| > 0 && chunks[0].Char?
    ensures txt2 + [chunks[0].c] + Rewritten(chunks[1..], |bodies|) == txt2 + Rewritten(chunks, |bodies|)
    ensures bodies + Bodies(chunks[1..]) == bodies + Bodies(chunks)
  {
    assert txt2 + [chunks[0].c] + Rewritten(chunks[1..], |bodies|) == txt2 + ([chunks[0].c] + Rewritten(chunks[1..], |bodies|));
  }

  /** What a leading group contributes to the scanner's output. */
  lemma GroupOutput(chunks: seq<Chunk>, txt2: string, bodies: seq<string>)
    requires |chunks| > 0 && chunks[0].Group?
    ensures txt2 + CallSite(|bodies|) + Rewritten(chunks[1..], |bodies + [chunks[0].body]|) == txt2 + Rewritten(chunks, |bodies|)
    ensures bodies + [chunks[0].body] + Bodies(chunks[1..]) == bodies + Bodies(chunks)
  {
    var b := chunks[0].body;
    assert txt2 + CallSite(|bodies|) + Rewritten(chunks[1..], |bodies| + 1) == txt2 + (CallSite(|bodies|) + Rewritten(chunks[1..], |bodies| + 1));
    assert bodies + [b] + Bodies(chunks[1..]) == bodies + ([b] + Bodies(chunks[1..]));
  }

  /** A well-formed template followed by `more` occurs position by position,
      and `more` follows it. */
  lemma {:induction false} AtFlatten(txt: string, i: nat, chunks: seq<Chunk>, more: string)
    requires i <= |txt| && txt[i..] == Flatten(chunks) + more && WellFormed(chunks)
    ensures At(txt, i, chunks) && i + Width(chunks) <= |txt| && txt[i + Width(chunks)..] == more
    decreases |chunks|
  {
    if |chunks| == 0 {
      assert txt[i..] == more;
    } else if chunks[0].Char? {
      CharSlices(txt, i, chunks, more);
      AtFlatten(txt, i + 1, chunks[1..], more);
    } else {
      GroupSlices(txt, i, chunks, more);
      AtFlatten(txt, i + |chunks[0].body| + 2, chunks[1..], more);
    }
  }

  /** Where the text continues with a group chunk, the scanner's indices find
      its body and the rest. */
  lemma GroupSlices(txt: string, i: nat, chunks: seq<Chunk>, more: string)
    requires i <= |txt| && txt[i..] == Flatten(chunks) + more
    requires |chunks| > 0 && chunks[0].Group? && ')' !in chunks[0].body
    ensures var b := chunks[0].body;
      i + |b| + 2 <= |txt| && txt[i] == '(' && txt[i + |b| + 1] == ')' &&
      txt[i + 1..i + |b| + 1] == b && txt[i + |b| + 2..] == Flatten(chunks[1..]) + more
  {
    FlattenGroup(chunks, more);
    SliceGroup(txt, i, chunks[0].body, Flatten(chunks[1..]) + more);
  }

  /** Where the text continues with a character chunk. */
  lemma CharSlices(txt: string, i: nat, chunks: seq<Chunk>, more: string)
    requires i <= |txt| && txt[i..] == Flatten(chunks) + more
    requires |chunks| > 0 && chunks[0].Char?
    ensures i + 1 <= |txt| && txt[i] == chunks[0].c && txt[i + 1..] == Flatten(chunks[1..]) + more
  {
    FlattenChar(chunks, more);
    SliceChar(txt, i, chunks[0].c, Flatten(chunks[1..]) + more);
  }

  lemma FlattenChar(chunks: seq<Chunk>, more: string)
    requires |chunks| > 0 && chunks[0].Char?
    ensures Flatten(chunks) + more == [chunks[0].c] + (Flatten(chunks[1..]) + more)
  {
    assert Flatten(chunks) == [chunks[0].c] + Flatten(chunks[1..]);
  }

  lemma FlattenGroup(chunks: seq<Chunk>, more: string)
    requires |chunks| > 0 && chunks[0].Group?
    ensures Flatten(chunks) + more == "(" + chunks[0].body + ")" + (Flatten(chunks[1..]) + more)
  {
    assert Flatten(chunks) == "(" + chunks[0].body + ")" + Flatten(chunks[1..]);
  }

  /** The scanner's result on a well-formed template. */
  lemma ScanWellFormed(tok: Tokenizer, lang: string, chunks: seq<Chunk>)
    requires WellFormed(chunks)
    ensures Scan(tok, lang, Flatten(chunks)) == Ok((Rewritten(chunks, 0), ImplicitOf(tok, lang, Bodies(chunks))))
  {
    FlattenAt(chunks, "");
    assert Flatten(chunks) + "" == Flatten(chunks);
    ScanFromWellFormed(Flatten(chunks), chunks);
  }

  /** A well-formed template occurs at the start of its text. */
  lemma FlattenAt(chunks: seq<Chunk>, more: string)
    requires WellFormed(chunks)
    ensures At(Flatten(chunks) + more, 0, chunks) && Width(chunks) <= |Flatten(chunks) + more|
    ensures (Flatten(chunks) + more)[Width(chunks)..] == more
  {
    assert (Flatten(chunks) + more)[0..] == Flatten(chunks) + more;
    AtFlatten(Flatten(chunks) + more, 0, chunks, more);
  }

  lemma ScanFromWellFormed(txt: string, chunks: seq<Chunk>)
    requires At(txt, 0, chunks) && Width(chunks) == |txt|
    ensures ScanFrom(txt, 0, "", []) == Ok((Rewritten(chunks, 0), Bodies(chunks)))
  {
    ScanChunks(txt, 0, chunks, "", []);
    assert "" + Rewritten(chunks, 0) == Rewritten(chunks, 0);
    assert [] + Bodies(chunks) == Bodies(chunks);
  }

  /** The scanner fails on a template followed by an unclosed `(`. */
  lemma ScanFailsUnclosed(tok: Tokenizer, lang: string, chunks: seq<Chunk>, rest: string)
    requires WellFormed(chunks) && ')' !in rest
    ensures Scan(tok, lang, Flatten(chunks) + "(" + rest) == Err(MissingParen)
  {
    assert Flatten(chunks) + "(" + rest == Flatten(chunks) + ("(" + rest);
    FlattenAt(chunks, "(" + rest);
    ScanFromUnclosed(Flatten(chunks) + ("(" + rest), chunks, rest);
  }

  lemma ScanFromUnclosed(txt: string, chunks: seq<Chunk>, rest: string)
    requires At(txt, 0, chunks) && Width(chunks) <= |txt| && txt[Width(chunks)..] == "(" + rest && ')' !in rest
    ensures ScanFrom(txt, 0, "", []) == Err(MissingParen)
  {
    ScanChunks(txt, 0, chunks, "", []);
    UnclosedStops(txt, Width(chunks), rest, "" + Rewritten(chunks, 0), [] + Bodies(chunks));
  }

  /** A `(` with no `)` after it stops the scanner. */
  lemma UnclosedStops(txt: string, at: nat, rest: string, txt2: string, bodies: seq<string>)
    requires at <= |txt| && txt[at..] == "(" + rest && ')' !in rest
    ensures ScanFrom(txt, at, txt2, bodies) == Err(MissingParen)
  {
    SliceChar(txt, at, '(', rest);
    FindSpec(rest, ')');
  }

  /** Every text is a well-formed template, possibly followed by an unclosed
      `(` (so, with ScanWellFormed and ScanFailsUnclosed, the scanner fails exactly on
      the texts of the second kind). */
  lemma {:induction false} Decompose(s: string) returns (chunks: seq<Chunk>, open: Option<string>)
    ensures WellFormed(chunks)
    ensures open.None? ==> s == Flatten(chunks)
    ensures open.Some? ==> ')' !in open.value && s == Flatten(chunks) + "(" + open.value
    decreases |s|
  {
    if |s| == 0 {
      chunks, open := [], None;
    } else if s[0] != '(' {
      var cs, o := Decompose(s[1..]);
      chunks, open := [Char(s[0])] + cs, o;
      ConsChunk(Char(s[0]), cs, [s[0]], s[1..], o);
      assert s == [s[0]] + s[1..];
    } else {
      var j := Find(s[1..], ')');
      FindSpec(s[1..], ')');
      if j < 0 {
        chunks, open := [], Some(s[1..]);
        assert s == "(" + s[1..];
      } else {
        var b := s[1..j + 1];
        GroupAtFront(s, j);
        var cs, o := Decompose(s[j + 2..]);
        chunks, open := [Group(b)] + cs, o;
        ConsChunk(Group(b), cs, "(" + b + ")", s[j + 2..], o);
      }
    }
  }

  /** Putting a chunk in front of a decomposition of the rest. */
  lemma ConsChunk(c: Chunk, cs: seq<Chunk>, head: string, rest: string, o: Option<string>)
    requires head == match c case Char(x) => [x] case Group(b) => "(" + b + ")"
    requires ChunkOk(c) && WellFormed(cs)
    requires o.None? ==> rest == Flatten(cs)
    requires o.Some? ==> ')' !in o.value && rest == Flatten(cs) + "(" + o.value
    ensures WellFormed([c] + cs)
    ensures o.None? ==> head + rest == Flatten([c] + cs)
    ensures o.Some? ==> head + rest == Flatten([c] + cs) + "(" + o.value
  {
    var chunks := [c] + cs;
    assert chunks[1..] == cs;
    assert Flatten(chunks) == head + Flatten(cs);
    if o.Some? {
      assert head + (Flatten(cs) + "(" + o.value) == head + Flatten(cs) + "(" + o.value;
    }
  }

  lemma GroupAtFront(s: string, j: int)
    requires |s| > 0 && s[0] == '(' && j == Find(s[1..], ')') && j >= 0
    ensures ')' !in s[1..j + 1]
    ensures s == "(" + s[1..j + 1] + ")" + s[j + 2..]
  {
    FindSpec(s[1..], ')');
    assert s[1..j + 1] == s[1..][..j];
  }

  /** `[p2 for p1 in txt2.split('{') for p2 in p1.split('}')]`: for a
      template written as literal texts with calls `{…}` between them, the
      literal texts at even indices and the calls at odd ones
      (`PartsOfWeave`). */
  function Parts(txt2: string): (parts: seq<string>)
    ensures |parts| >= 1
    ensures forall i :: 0 <= i < |parts| ==> '{' !in parts[i] && '}' !in parts[i]
  {
    SplitSpec(txt2, '{');
    SplitEach(Split(txt2, '{'))
  }

  function SplitEach(ps: seq<string>): (parts: seq<string>)
    requires forall i :: 0 <= i < |ps| ==> '{' !in ps[i]
    ensures |ps| >= 1 ==> |parts| >= 1
    ensures forall i :: 0 <= i < |parts| ==> '{' !in parts[i] && '}' !in parts[i]
  {
    if |ps| == 0 then []
    else
      var head := Split(ps[0], '}');
      SplitSpec(ps[0], '}');
      assert forall i :: 0 <= i < |head| ==> '{' !in head[i] by {
        forall i | 0 <= i < |head| ensures '{' !in head[i] {
          SplitPieceIn(ps[0], '}', i, '{');
        }
      }
      head + SplitEach(ps[1..])
  }

  lemma SplitPieceIn(s: string, c: char, i: nat, d: char)
    requires d !in s
    requires i < |Split(s, c)|
    ensures d !in Split(s, c)[i]
    decreases |s|
  {
    var j := Find(s, c);
    if j >= 0 && i > 0 {
      SplitPieceIn(s[j + 1..], c, i - 1, d);
    }
  }

  /** No piece holds a brace. */
  predicate BraceFree(xs: seq<string>)
  {
    forall i :: 0 <= i < |xs| ==> '{' !in xs[i] && '}' !in xs[i]
  }

  /** A template built from the literal texts `ls` with the calls `cs`
      between them: `ls[0] + "{" + cs[0] + "}" + ls[1] + … + ls[|cs|]`. */
  function Weave(ls: seq<string>, cs: seq<string>): string
    requires |ls| == |cs| + 1
    decreases |cs|
  {
    if |cs| == 0 then ls[0] else ls[0] + "{" + cs[0] + "}" + Weave(ls[1..], cs[1..])
  }

  /** The parts of a woven template: the first literal text, then each
      call followed by the literal text after it. */
  function Alternate(ls: seq<string>, cs: seq<string>): (ps: seq<string>)
    requires |ls| == |cs| + 1
  {
    [ls[0]] + Pairs(ls[1..], cs)
  }

  /** `[cs[0], ls[0], cs[1], ls[1], …]`. */
  function Pairs(ls: seq<string>, cs: seq<string>): (ps: seq<string>)
    requires |ls| == |cs|
    ensures |ps| == 2 * |cs|
    decreases |cs|
  {
    if |cs| == 0 then [] else [cs[0], ls[0]] + Pairs(ls[1..], cs[1..])
  }

  /** The pieces after the first `{` of a woven template: each call with its
      `}` and the literal text after it. */
  function Closes(ls: seq<string>, cs: seq<string>): (ps: seq<string>)
    requires |ls| == |cs|
    ensures |ps| == |cs|
    decreases |cs|
  {
    if |cs| == 0 then [] else [cs[0] + "}" + ls[0]] + Closes(ls[1..], cs[1..])
  }

  lemma {:induction false} ClosesFree(ls: seq<string>, cs: seq<string>)
    requires |ls| == |cs| && BraceFree(ls) && BraceFree(cs)
    ensures forall i :: 0 <= i < |Closes(ls, cs)| ==> '{' !in Closes(ls, cs)[i]
    decreases |cs|
  {
    if |cs| > 0 {
      ClosesFree(ls[1..], cs[1..]);
      assert '{' !in ls[0] && '{' !in cs[0];
      assert '{' !in cs[0] + "}" + ls[0];
    }
  }

  /** Splitting a woven template on `{`. */
  lemma {:induction false} WeaveSplitOpen(ls: seq<string>, cs: seq<string>)
    requires |ls| == |cs| + 1 && BraceFree(ls) && BraceFree(cs)
    ensures Split(Weave(ls, cs), '{') == [ls[0]] + Closes(ls[1..], cs)
    decreases |cs|
  {
    if |cs| == 0 {
      SplitNone(ls[0], '{');
    } else {
      var rest := Weave(ls[1..], cs[1..]);
      WeaveSplitOpen(ls[1..], cs[1..]);
      WeaveStep(ls, cs, rest);
    }
  }

  lemma WeaveStep(ls: seq<string>, cs: seq<string>, rest: string)
    requires |ls| == |cs| + 1 && |cs| > 0 && BraceFree(ls) && BraceFree(cs)
    requires rest == Weave(ls[1..], cs[1..])
    requires Split(rest, '{') == [ls[1..][0]] + Closes(ls[1..][1..], cs[1..])
    ensures Split(Weave(ls, cs), '{') == [ls[0]] + Closes(ls[1..], cs)
  {
    var a := cs[0] + "}";
    assert Weave(ls, cs) == ls[0] + ['{'] + (a + rest);
    SplitCons(ls[0], '{', a + rest);
    assert '{' !in a;
    SplitFront(a, '{', rest);
    assert ls[1..][1..] == ls[2..];
    assert Closes(ls[1..], cs) == [a + ls[1]] + Closes(ls[2..], cs[1..]);
  }

  /** Splitting those pieces on `}` separates each call from the literal text
      after it. */
  lemma {:induction false} SplitEachClose(ls: seq<string>, cs: seq<string>)
    requires |ls| == |cs| && BraceFree(ls) && BraceFree(cs)
    requires forall i :: 0 <= i < |Closes(ls, cs)| ==> '{' !in Closes(ls, cs)[i]
    ensures SplitEach(Closes(ls, cs)) == Pairs(ls, cs)
    decreases |cs|
  {
    if |cs| > 0 {
      ClosesFree(ls[1..], cs[1..]);
      SplitEachClose(ls[1..], cs[1..]);
      SplitEachCons(Closes(ls, cs));
      CallClose(cs[0], ls[0]);
    }
  }

  lemma SplitEachCons(ps: seq<string>)
    requires |ps| >= 1 && forall i :: 0 <= i < |ps| ==> '{' !in ps[i]
    ensures SplitEach(ps) == Split(ps[0], '}') + SplitEach(ps[1..])
  {
  }

  /** A call, its `}` and the literal text after it split into the two. */
  lemma CallClose(c: string, l: string)
    requires '}' !in c && '}' !in l
    ensures Split(c + "}" + l, '}') == [c, l]
  {
    SplitCons(c, '}', l);
    SplitNone(l, '}');
  }

  lemma {:induction false} PairsAt(ls: seq<string>, cs: seq<string>)
    requires |ls| == |cs|
    ensures forall i :: 0 <= i < |cs| ==> Pairs(ls, cs)[2 * i] == cs[i] && Pairs(ls, cs)[2 * i + 1] == ls[i]
    decreases |cs|
  {
    if |cs| > 0 {
      PairsAt(ls[1..], cs[1..]);
      var ps := Pairs(ls, cs);
      forall i | 1 <= i < |cs|
        ensures ps[2 * i] == cs[i] && ps[2 * i + 1] == ls[i]
      {
        assert ps[2 * i] == Pairs(ls[1..], cs[1..])[2 * (i - 1)];
        assert ps[2 * i + 1] == Pairs(ls[1..], cs[1..])[2 * (i - 1) + 1];
      }
    }
  }

  lemma AlternateAt(ls: seq<string>, cs: seq<string>)
    requires |ls| == |cs| + 1
    ensures |Alternate(ls, cs)| == 2 * |cs| + 1
    ensures forall i :: 0 <= i < |ls| ==> Alternate(ls, cs)[2 * i] == ls[i]
    ensures forall i :: 0 <= i < |cs| ==> Alternate(ls, cs)[2 * i + 1] == cs[i]
  {
    PairsAt(ls[1..], cs);
    var ps := Alternate(ls, cs);
    forall i | 1 <= i < |ls|
      ensures ps[2 * i] == ls[i]
    {
      assert ps[2 * i] == Pairs(ls[1..], cs)[2 * (i - 1) + 1];
    }
    forall i | 0 <= i < |cs|
      ensures ps[2 * i + 1] == cs[i]
    {
      assert ps[2 * i + 1] == Pairs(ls[1..], cs)[2 * i];
    }
  }

  /** The split on `{` and then `}` takes a woven template apart. */
  lemma PartsWoven(ls: seq<string>, cs: seq<string>)
    requires |ls| == |cs| + 1 && BraceFree(ls) && BraceFree(cs)
    ensures Parts(Weave(ls, cs)) == Alternate(ls, cs)
  {
    WeaveSplitOpen(ls, cs);
    ClosesFree(ls[1..], cs);
    var ps := [ls[0]] + Closes(ls[1..], cs);
    SplitEachCons(ps);
    SplitNone(ls[0], '}');
    assert ps[1..] == Closes(ls[1..], cs);
    SplitEachClose(ls[1..], cs);
  }

  /** The parts of a template written as brace-free literal texts with
      brace-free calls between them are those texts and calls, alternating:
      literal text at even indices, calls at odd ones, which is where the
      enumerator looks for them. */
  lemma PartsOfWeave(ls: seq<string>, cs: seq<string>)
    requires |ls| == |cs| + 1 && BraceFree(ls) && BraceFree(cs)
    ensures |Parts(Weave(ls, cs))| == 2 * |cs| + 1
    ensures forall i :: 0 <= i < |ls| ==> Parts(Weave(ls, cs))[2 * i] == ls[i]
    ensures forall i :: 0 <= i < |cs| ==> Parts(Weave(ls, cs))[2 * i + 1] == cs[i]
  {
    PartsWoven(ls, cs);
    AlternateAt(ls, cs);
  }
}
