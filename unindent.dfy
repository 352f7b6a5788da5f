/** `DataEngine._unindent` (zamiaai/data_engine.py:383-399): the source text
    of a response function, as `inspect.getsource` returns it, moved left by
    the indentation of its first non-blank line. */
module Unindent {
  import opened Text

  function Lines(code: string): (ls: seq<string>)
    ensures |ls| >= 1
  {
    Split(code, '\n')
  }

  /** `line.strip()` is truthy. */
  predicate NonBlank(line: string)
  {
    Strip(line) != ""
  }

  /** `line.index(line.strip()[0])`: where the first non-blank character of a
      non-blank line first occurs. */
  function IndentOf(line: string): int
    requires NonBlank(line)
  {
    Find(line, Strip(line)[0])
  }

  /** The indentation the loop at data_engine.py:386-390 settles on: that of
      the first non-blank line, or 0 when every line is blank. */
  function FirstIndent(lines: seq<string>): int
  {
    if |lines| == 0 then 0
    else if NonBlank(lines[0]) then IndentOf(lines[0])
    else FirstIndent(lines[1..])
  }

  /** `line[n:]` for `n >= 0`: empty when the line is shorter. */
  function Drop(line: string, n: nat): string
  {
    if n <= |line| then line[n..] else ""
  }

  /** One line of the result. */
  function Shift(line: string, n: nat): string
  {
    if NonBlank(line) then Drop(line, n) else line
  }

  function ShiftAll(lines: seq<string>, n: nat): (res: seq<string>)
    ensures |res| == |lines|
    ensures forall i :: 0 <= i < |lines| ==> res[i] == Shift(lines[i], n)
  {
    seq(|lines|, i requires 0 <= i < |lines| => Shift(lines[i], n))
  }

  function Unindented(code: string): string
  {
    var lines := Lines(code);
    var n := FirstIndent(lines);
    if n <= 0 then code else Join(ShiftAll(lines, n), "\n")
  }

  /** The first occurrence of a non-blank line's first non-blank character is
      right after its leading whitespace. */
  lemma IndentIsLeading(line: string)
    requires NonBlank(line)
    ensures IndentOf(line) == LeadingSpaces(line)
  {
    var k := LeadingSpaces(line);
    var c := Strip(line)[0];
    assert k < |line| && c == line[k];
    assert c !in line[..k] by {
      forall i | 0 <= i < k ensures line[..k][i] != c {
        assert IsSpace(line[i]);
      }
    }
    Around(line, k);
    assert line == line[..k] + [c] + line[k + 1..];
    FindAfterPrefix(line[..k], c, line[k + 1..]);
  }

  /** The indentation found is that of the first non-blank line, and every
      line before it is blank. */
  lemma {:induction false} FirstIndentAt(lines: seq<string>)
    ensures FirstIndent(lines) >= 0
    ensures FirstIndent(lines) > 0 ==>
      exists f :: 0 <= f < |lines| && FirstNonBlank(lines, f) && FirstIndent(lines) == LeadingSpaces(lines[f])
  {
    if |lines| > 0 {
      if NonBlank(lines[0]) {
        IndentIsLeading(lines[0]);
        assert FirstNonBlank(lines, 0);
      } else {
        FirstIndentAt(lines[1..]);
        if FirstIndent(lines) > 0 {
          var f :| 0 <= f < |lines[1..]| && FirstNonBlank(lines[1..], f) &&
            FirstIndent(lines[1..]) == LeadingSpaces(lines[1..][f]);
          assert FirstNonBlank(lines, f + 1);
        }
      }
    }
  }

  /** Line `f` is the first non-blank one. */
  predicate FirstNonBlank(lines: seq<string>, f: nat)
  {
    f < |lines| && NonBlank(lines[f]) && forall i :: 0 <= i < f ==> !NonBlank(lines[i])
  }

  /** With every line before `f` blank and line `f` non-blank, the loop
      finds line `f`'s indentation. */
  lemma {:induction false} FirstIndentOf(lines: seq<string>, f: nat)
    requires FirstNonBlank(lines, f)
    ensures FirstIndent(lines) == LeadingSpaces(lines[f])
  {
    if f == 0 {
      IndentIsLeading(lines[0]);
    } else {
      assert !NonBlank(lines[0]);
      assert FirstNonBlank(lines[1..], f - 1);
      FirstIndentOf(lines[1..], f - 1);
    }
  }

  /** A piece of a line holds no line break. */
  lemma DropNoBreak(line: string, n: nat)
    requires '\n' !in line
    ensures '\n' !in Drop(line, n)
  {
    if n <= |line| {
      assert forall i :: 0 <= i < |line[n..]| ==> line[n..][i] == line[n + i];
    }
  }

  /** `_unindent` keeps the number of lines, leaves blank lines as they are,
      and either returns the text unchanged (when the first non-blank line
      has no indentation, or there is none) or cuts the first non-blank
      line's indentation off the front of every non-blank line. */
  lemma UnindentedLines(code: string)
    ensures |Lines(Unindented(code))| == |Lines(code)|
    ensures forall i :: 0 <= i < |Lines(code)| && !NonBlank(Lines(code)[i]) ==> Lines(Unindented(code))[i] == Lines(code)[i]
    ensures FirstIndent(Lines(code)) == 0 ==> Unindented(code) == code
    ensures forall f: nat :: FirstNonBlank(Lines(code), f) ==>
      forall i :: 0 <= i < |Lines(code)| && NonBlank(Lines(code)[i]) ==>
        Lines(Unindented(code))[i] == Drop(Lines(code)[i], LeadingSpaces(Lines(code)[f]))
  {
    var lines := Lines(code);
    FirstIndentAt(lines);
    forall f: nat | FirstNonBlank(lines, f) ensures FirstIndent(lines) == LeadingSpaces(lines[f]) {
      FirstIndentOf(lines, f);
    }
    if FirstIndent(lines) > 0 {
      SplitSpec(code, '\n');
      var shifted := ShiftAll(lines, FirstIndent(lines));
      forall i | 0 <= i < |shifted| ensures '\n' !in shifted[i] {
        DropNoBreak(lines[i], FirstIndent(lines));
      }
      SplitJoin(shifted, '\n');
    }
  }

  /** Unindenting twice changes nothing more. */
  lemma UnindentedIdempotent(code: string)
    ensures Unindented(Unindented(code)) == Unindented(code)
  {
    var lines := Lines(code);
    FirstIndentAt(lines);
    if FirstIndent(lines) > 0 {
      var f :| 0 <= f < |lines| && FirstNonBlank(lines, f) && FirstIndent(lines) == LeadingSpaces(lines[f]);
      UnindentedLines(code);
      var u := Unindented(code);
      var out := Lines(u);
      var n := LeadingSpaces(lines[f]);
      assert out[f] == Drop(lines[f], n) == lines[f][n..];
      LeadingOfDrop(lines[f]);
      forall i | 0 <= i < f
        ensures !NonBlank(out[i])
      {
        assert !NonBlank(lines[i]) && out[i] == lines[i];
      }
      assert FirstNonBlank(out, f);
      FirstIndentOf(out, f);
      assert FirstIndent(out) == 0;
    }
  }

  /** Cutting off a non-blank line's leading whitespace leaves a non-blank
      line without leading whitespace. */
  lemma LeadingOfDrop(line: string)
    requires NonBlank(line)
    ensures NonBlank(line[LeadingSpaces(line)..]) && LeadingSpaces(line[LeadingSpaces(line)..]) == 0
  {
    var k := LeadingSpaces(line);
    var rest := line[k..];
    assert k < |line| && !IsSpace(rest[0]);
    assert !IsBlank(rest);
  }

  /** `_unindent` as the source runs it: find the indentation of the first
      non-blank line, then cut it off every non-blank line and join. */
  method Unindent(code: string) returns (res: string)
    ensures res == Unindented(code)
  {
    var lines := Split(code, '\n');
    var indentLen := FindIndent(lines);
    if indentLen == 0 {
      return code;
    }
    FirstIndentAt(lines);
    var newLines := ShiftLines(lines, indentLen);
    res := Join(newLines, "\n");
  }

  /** `for line in lines: stripped = line.strip(); if stripped: ...; break`
      (data_engine.py:385-390). */
  method FindIndent(lines: seq<string>) returns (indentLen: int)
    ensures indentLen == FirstIndent(lines)
  {
    indentLen := 0;
    var i := 0;
    while i < |lines|
      invariant 0 <= i <= |lines|
      invariant FirstIndent(lines) == FirstIndent(lines[i..])
    {
      var stripped := Strip(lines[i]);
      if stripped != "" {
        indentLen := Find(lines[i], stripped[0]);
        assert lines[i..][0] == lines[i];
        return;
      }
      assert lines[i..][1..] == lines[i + 1..];
      i := i + 1;
    }
  }

  /** `for line in lines: if line.strip(): line = line[indent_len:]; new_lines.append(line)`
      (data_engine.py:394-398). */
  method ShiftLines(lines: seq<string>, indentLen: nat) returns (newLines: seq<string>)
    ensures newLines == ShiftAll(lines, indentLen)
  {
    newLines := [];
    for j := 0 to |lines|
      invariant newLines == ShiftAll(lines[..j], indentLen)
    {
      var line := lines[j];
      if Strip(line) != "" {
        line := if indentLen <= |line| then line[indentLen..] else "";
      }
      newLines := newLines + [line];
      assert lines[..j + 1] == lines[..j] + [lines[j]];
    }
    assert lines[..|lines|] == lines;
  }
}
