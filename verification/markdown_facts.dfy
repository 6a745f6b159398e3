/** What FormatMarkdown and formatLine (handler.go:54-129) promise about a
    document. */
module MarkdownFacts {
  import opened GoStrings
  import opened Interleave
  import opened Spacing
  import SpacingFacts
  import opened Links
  import opened Markdown

  /** Dropping leading spaces changes nothing but spaces. */
  lemma TrimLeftKeepsText(s: string)
    ensures Squeeze(TrimLeftSpaces(s)) == Squeeze(s)
  {
    var r := TrimLeftSpaces(s);
    var k := |s| - |r|;
    var spaces := s[..k];
    assert r == s[k..];
    assert s == spaces + r;
    forall i | 0 <= i < |spaces| ensures spaces[i] == ' ' {
    }
    SqueezeAllSpaces(spaces);
    SqueezeAppend(spaces, r);
  }

  lemma {:induction false} SqueezeAllSpaces(s: string)
    requires forall i :: 0 <= i < |s| ==> s[i] == ' '
    ensures Squeeze(s) == []
  {
    if s != [] {
      SqueezeAllSpaces(s[1..]);
    }
  }

  /** Group 2 of the header and list patterns is the whole rest of a line
      without a newline. */
  lemma TakeLineWhole(s: string)
    requires '\n' !in s
    ensures Markdown.TakeLine(s) == s
  {
  }

  /** A prefix followed by the spaced rest of the line changes nothing but
      spaces. */
  lemma PrefixedKeepsText(line: string, m: nat, rest: string)
    requires m <= |line| && rest == line[m..]
    ensures Squeeze(line[..m] + Format(TrimLeftSpaces(rest))) == Squeeze(line)
  {
    SpacingFacts.FormatKeepsText(TrimLeftSpaces(rest));
    TrimLeftKeepsText(rest);
    SqueezeTwo(line[..m], Format(TrimLeftSpaces(rest)), line[..m], rest);
    assert line[..m] + rest == line;
  }

  /** formatLine changes nothing but spaces on a line without a newline
      (every line FormatMarkdown hands it). */
  lemma LineOutKeepsText(code: bool, line: string)
    requires '\n' !in line
    ensures Squeeze(LineOut(code, line)) == Squeeze(line)
  {
    if !code && !IsFence(line) {
      if HasPrefix(line, "> ") {
        assert line[..2] == "> ";
        PrefixedKeepsText(line, 2, line[2..]);
      } else if HeaderMatch(line).Some? {
        var m := HeaderMatch(line).value;
        assert TakeLine(line[m..]) == line[m..];
        PrefixedKeepsText(line, m, line[m..]);
      } else if OrderedMatch(line).Some? {
        var m := OrderedMatch(line).value;
        assert TakeLine(line[m..]) == line[m..];
        PrefixedKeepsText(line, m, line[m..]);
      } else if HasPrefix(line, "- ") {
        assert line[..2] == "- ";
        PrefixedKeepsText(line, 2, line[2..]);
      } else if AllLinks(line, 0) != [] {
        WithLinksKeepsText(line, AllLinks(line, 0));
      } else {
        SpacingFacts.FormatKeepsText(line);
      }
    }
  }

  /** Running over a + b is running over a, then over b. */
  lemma {:induction false} RunAppend(d: Doc, a: seq<string>, b: seq<string>)
    ensures Run(d, a + b) == Run(Run(d, a), b)
    decreases |b|
  {
    if b == [] {
      assert a + b == a;
    } else {
      var n := |b| - 1;
      assert (a + b)[..|a + b| - 1] == a + b[..n];
      assert (a + b)[|a + b| - 1] == b[n];
      RunAppend(d, a, b[..n]);
    }
  }

  /** The number of fence lines. */
  function Fences(lines: seq<string>): (n: nat)
    ensures n <= |lines|
  {
    if lines == [] then 0
    else Fences(lines[..|lines| - 1]) + (if IsFence(lines[|lines| - 1]) then 1 else 0)
  }

  /** After the lines, the text is inside a code block exactly when it was
      before and an even number of fences passed, or it was not and an odd
      number passed. */
  lemma {:induction false} CodeParity(d: Doc, lines: seq<string>)
    ensures Run(d, lines).code <==> (d.code != (Fences(lines) % 2 == 1))
  {
    if lines != [] {
      CodeParity(d, lines[..|lines| - 1]);
    }
  }

  /** Lines are only ever appended, at most one per input line. */
  lemma {:induction false} RunAppendsOnly(d: Doc, lines: seq<string>)
    ensures |d.out| <= |Run(d, lines).out| <= |d.out| + |lines|
    ensures Run(d, lines).out[..|d.out|] == d.out
  {
    if lines != [] {
      var prev := Run(d, lines[..|lines| - 1]);
      RunAppendsOnly(d, lines[..|lines| - 1]);
      assert Run(d, lines).out == prev.out || Run(d, lines).out == prev.out + [LineOut(prev.code, lines[|lines| - 1])];
    }
  }

  /** The empty-line flag never changes what is output: outside code every
      blank line is dropped, whatever the flag says. */
  lemma {:induction false} EmptyFlagIgnored(code: bool, e1: bool, e2: bool, out: seq<string>, lines: seq<string>)
    ensures Run(Doc(code, e1, out), lines).out == Run(Doc(code, e2, out), lines).out
    ensures Run(Doc(code, e1, out), lines).code == Run(Doc(code, e2, out), lines).code
  {
    if lines != [] {
      EmptyFlagIgnored(code, e1, e2, out, lines[..|lines| - 1]);
    }
  }

  /** The formatted non-blank lines, in order. */
  function Kept(lines: seq<string>): (r: seq<string>)
    ensures |r| <= |lines|
  {
    if lines == [] then []
    else
      var last := lines[|lines| - 1];
      Kept(lines[..|lines| - 1]) + (if IsBlank(last) then [] else [Body(last)])
  }

  /** Outside a code block, a line is formatted into a blank line exactly
      when it is blank. */
  lemma BlankIff(line: string)
    requires '\n' !in line && !IsFence(line)
    ensures IsBlank(LineOut(false, line)) <==> IsBlank(line)
  {
    var out := LineOut(false, line);
    LineOutKeepsText(false, line);
    if !IsBlank(line) {
      var i :| 0 <= i < |line| && !IsSpace(line[i]);
      SqueezeMembers(line, line[i]);
      SqueezeMembers(out, line[i]);
      var j :| 0 <= j < |out| && out[j] == line[i];
    } else if !IsBlank(out) {
      var j :| 0 <= j < |out| && !IsSpace(out[j]);
      SqueezeMembers(line, out[j]);
      SqueezeMembers(out, out[j]);
    }
  }

  /** A document part without fences, outside a code block: every blank
      line is dropped and every other line is formatted by `Body`. */
  lemma {:induction false} PlainRun(d: Doc, lines: seq<string>)
    requires !d.code
    requires forall i :: 0 <= i < |lines| ==> '\n' !in lines[i] && !IsFence(lines[i])
    ensures Run(d, lines).out == d.out + Kept(lines)
    ensures !Run(d, lines).code
  {
    if lines != [] {
      var n := |lines| - 1;
      var prev := Run(d, lines[..n]);
      PlainRun(d, lines[..n]);
      PlainStep(prev, lines[n]);
      var added: seq<string> := if IsBlank(lines[n]) then [] else [Body(lines[n])];
      assert Run(d, lines) == Emit(prev, lines[n]);
      assert Kept(lines) == Kept(lines[..n]) + added;
      assert Emit(prev, lines[n]).out == d.out + Kept(lines[..n]) + added;
    }
  }

  /** One line outside a code block that is no fence. */
  lemma PlainStep(d: Doc, line: string)
    requires !d.code && '\n' !in line && !IsFence(line)
    ensures Emit(d, line).out == d.out + (if IsBlank(line) then [] else [Body(line)])
    ensures !Emit(d, line).code
  {
    BlankIff(line);
  }

  /** Inside a code block, lines without a fence are output as they are. */
  lemma {:induction false} CodeRun(d: Doc, lines: seq<string>)
    requires d.code
    requires forall i :: 0 <= i < |lines| ==> !IsFence(lines[i])
    ensures Run(d, lines).out == d.out + lines
    ensures Run(d, lines).code
  {
    if lines != [] {
      var n := |lines| - 1;
      CodeRun(d, lines[..n]);
      assert lines == lines[..n] + [lines[n]];
    }
  }

  /** A fenced code block is output as it is, fences included, blank lines
      included, and leaves the text outside code again. */
  lemma FencedBlock(d: Doc, open: string, body: seq<string>, close: string)
    requires !d.code && IsFence(open) && IsFence(close)
    requires forall i :: 0 <= i < |body| ==> !IsFence(body[i])
    ensures Run(d, [open] + body + [close]).out == d.out + [open] + body + [close]
    ensures !Run(d, [open] + body + [close]).code
  {
    assert Run(d, [open]) == Emit(Run(d, []), open);
    var d1 := Run(d, [open]);
    assert d1.code && d1.out == d.out + [open];
    CodeRun(d1, body);
    RunAppend(d, [open], body);
    var d2 := Run(d, [open] + body);
    assert !IsBlank(close) by {
      assert close[0] == '`';
    }
    RunAppend(d, [open] + body, [close]);
    assert Run(d2, [close]) == Emit(Run(d2, []), close);
  }

  /** A document without fences: FormatMarkdown returns its non-blank lines,
      each formatted by `Body`, joined by newlines. */
  lemma PlainDocument(empty: bool, text: string)
    requires forall i :: 0 <= i < |Split(text)| ==> !IsFence(Split(text)[i])
    ensures Run(Doc(false, empty, []), Split(text)).out == Kept(Split(text))
  {
    PlainRun(Doc(false, empty, []), Split(text));
  }
}
