/** What HandleText and handleLine (space/handler.go:43-100) promise about
    a document. */
module SpaceHandlerFacts {
  import opened GoStrings
  import opened Interleave
  import opened SpaceBlock
  import SpaceFacts
  import Markdown
  import MarkdownFacts
  import opened SpaceHandler

  /** handleLine changes nothing but spaces on a line without a newline. */
  lemma LineOutKeepsText(code: bool, line: string)
    requires '\n' !in line
    ensures Squeeze(LineOut(code, line)) == Squeeze(line)
  {
    if !code && !Markdown.IsFence(line) {
      var out := LineOut(code, line);
      if HasPrefix(line, "> ") {
        var rest := TrimLeftSpaces(line[2..]);
        assert out == line[..2] + Block(rest);
        MarkdownFacts.TrimLeftKeepsText(line[2..]);
        PrefixedKeepsText(line, 2, rest);
      } else if Markdown.HeaderMatch(line).Some? {
        var m := Markdown.HeaderMatch(line).value;
        MarkdownFacts.TakeLineWhole(line[m..]);
        assert out == line[..m] + Block(line[m..]);
        PrefixedKeepsText(line, m, line[m..]);
      } else if Markdown.OrderedMatch(line).Some? {
        var m := Markdown.OrderedMatch(line).value;
        MarkdownFacts.TakeLineWhole(line[m..]);
        assert out == line[..m] + Block(line[m..]);
        PrefixedKeepsText(line, m, line[m..]);
      } else if HasPrefix(line, "- ") {
        assert out == line[..2] + Block(line[2..]);
        PrefixedKeepsText(line, 2, line[2..]);
      } else {
        SpaceFacts.BlockKeepsText(line);
      }
    }
  }

  /** A prefix of the line followed by the spaced rest, where the rest
      squeezes like the line after the prefix. */
  lemma PrefixedKeepsText(line: string, m: nat, rest: string)
    requires m <= |line| && Squeeze(rest) == Squeeze(line[m..])
    ensures Squeeze(line[..m] + Block(rest)) == Squeeze(line)
  {
    var head, tail := line[..m], line[m..];
    assert head + tail == line;
    SpaceFacts.BlockKeepsText(rest);
    SqueezeTwo(head, Block(rest), head, tail);
  }

  /** Outside a code block, a line is spaced into a blank line exactly when
      it is blank. */
  lemma BlankIff(line: string)
    requires '\n' !in line && !Markdown.IsFence(line)
    ensures IsBlank(LineOut(false, line)) <==> IsBlank(line)
  {
    var out := LineOut(false, line);
    LineOutKeepsText(false, line);
    if !IsBlank(line) {
      var i :| 0 <= i < |line| && !IsSpace(line[i]);
      SqueezeMembers(line, line[i]);
      SqueezeMembers(out, line[i]);
      var j :| 0 <= j < |out| && out[j] == line[i];
    } else if !IsBlank(out) {
      var j :| 0 <= j < |out| && !IsSpace(out[j]);
      SqueezeMembers(line, out[j]);
      SqueezeMembers(out, out[j]);
    }
  }

  /** The reference output of a fence-free part outside code: each run of
      blank lines becomes one empty line, every other line is spaced by
      `BlockBody`.  prevBlank says whether the line before the part was
      blank. */
  function Collapse(prevBlank: bool, lines: seq<string>): (r: seq<string>)
    ensures |r| <= |lines|
  {
    if lines == [] then []
    else
      var n := |lines| - 1;
      var before := if n == 0 then prevBlank else IsBlank(lines[n - 1]);
      Collapse(prevBlank, lines[..n])
      + (if !IsBlank(lines[n]) then [BlockBody(lines[n])] else if before then [] else [""])
  }

  /** A fence-free part of a document outside code is output as `Collapse`
      says, and the empty flag then tells whether its last line was blank. */
  lemma PlainRun(d: Markdown.Doc, lines: seq<string>)
    requires !d.code
    requires forall i :: 0 <= i < |lines| ==> '\n' !in lines[i] && !Markdown.IsFence(lines[i])
    ensures Run(d, lines).out == d.out + Collapse(d.empty, lines)
    ensures !Run(d, lines).code
    ensures Run(d, lines).empty == if lines == [] then d.empty else IsBlank(lines[|lines| - 1])
  {
    PlainShape(d, lines, Run(d, lines), Collapse(d.empty, lines));
  }

  /** `PlainRun` over the run r and the collapsed part col. */
  lemma {:induction false} PlainShape(d: Markdown.Doc, lines: seq<string>, r: Markdown.Doc, col: seq<string>)
    requires !d.code
    requires forall i :: 0 <= i < |lines| ==> '\n' !in lines[i] && !Markdown.IsFence(lines[i])
    requires r == Run(d, lines) && col == Collapse(d.empty, lines)
    ensures r.out == d.out + col && !r.code
    ensures r.empty == if lines == [] then d.empty else IsBlank(lines[|lines| - 1])
  {
    if lines != [] {
      var n := |lines| - 1;
      var line := lines[n];
      var prev := Run(d, lines[..n]);
      var c := Collapse(d.empty, lines[..n]);
      PlainShape(d, lines[..n], prev, c);
      if n > 0 {
        assert lines[..n][n - 1] == lines[n - 1];
      }
      var before := if n == 0 then d.empty else IsBlank(lines[n - 1]);
      assert prev.empty == before;
      var added: seq<string> :=
        if !IsBlank(line) then [BlockBody(line)] else if before then [] else [""];
      assert col == c + added;
      assert r == Emit(prev, line);
      PlainStep(prev, line);
      assert r.out == prev.out + added;
      assert r.empty == IsBlank(line);
    }
  }

  /** One line outside a code block that is no fence. */
  lemma PlainStep(d: Markdown.Doc, line: string)
    requires !d.code && '\n' !in line && !Markdown.IsFence(line)
    ensures Emit(d, line).out == d.out + (if !IsBlank(line) then [BlockBody(line)] else if d.empty then [] else [""])
    ensures !Emit(d, line).code && Emit(d, line).empty == IsBlank(line)
  {
    BlankIff(line);
  }

  /** Every blank line of out is the empty line, no two adjacent lines are
      both blank, and the first line is not blank when the line before out
      was. */
  ghost predicate NoBlankRuns(prevBlank: bool, out: seq<string>) {
    (forall j :: 0 <= j < |out| && IsBlank(out[j]) ==> out[j] == []) &&
    (out != [] && IsBlank(out[0]) ==> !prevBlank) &&
    (forall i, j :: 0 <= i < j < |out| && j == i + 1 ==> !(IsBlank(out[i]) && IsBlank(out[j])))
  }

  /** The collapsed output has no blank runs, its last line is blank iff
      the last line of the part is, and it is empty only when the part is a
      run of blank lines continuing one before it. */
  lemma CollapseHasNoBlankRuns(prevBlank: bool, lines: seq<string>)
    requires forall i :: 0 <= i < |lines| ==> '\n' !in lines[i] && !Markdown.IsFence(lines[i])
    ensures NoBlankRuns(prevBlank, Collapse(prevBlank, lines))
    ensures lines != [] && Collapse(prevBlank, lines) != [] ==>
      (IsBlank(Collapse(prevBlank, lines)[|Collapse(prevBlank, lines)| - 1]) <==> IsBlank(lines[|lines| - 1]))
    ensures lines != [] && Collapse(prevBlank, lines) == [] ==> prevBlank && IsBlank(lines[|lines| - 1])
  {
    CollapseShape(prevBlank, lines, Collapse(prevBlank, lines));
  }

  /** The same, by induction, of the output out of the part. */
  lemma {:induction false} CollapseShape(prevBlank: bool, lines: seq<string>, out: seq<string>)
    requires forall i :: 0 <= i < |lines| ==> '\n' !in lines[i] && !Markdown.IsFence(lines[i])
    requires out == Collapse(prevBlank, lines)
    ensures NoBlankRuns(prevBlank, out)
    ensures lines != [] && out != [] ==> (IsBlank(out[|out| - 1]) <==> IsBlank(lines[|lines| - 1]))
    ensures lines != [] && out == [] ==> prevBlank && IsBlank(lines[|lines| - 1])
  {
    if lines != [] {
      var n := |lines| - 1;
      var c := Collapse(prevBlank, lines[..n]);
      var before := if n == 0 then prevBlank else IsBlank(lines[n - 1]);
      var added: seq<string> :=
        if !IsBlank(lines[n]) then [BlockBody(lines[n])] else if before then [] else [""];
      assert out == c + added;
      CollapseShape(prevBlank, lines[..n], c);
      if n > 0 {
        assert lines[..n][n - 1] == lines[n - 1];
      }
      BlankIff(lines[n]);
      CollapseStep(prevBlank, c, before, IsBlank(lines[n]), BlockBody(lines[n]), added);
      assert NoBlankRuns(prevBlank, out);
      assert out != [] ==> (IsBlank(out[|out| - 1]) <==> IsBlank(lines[|lines| - 1]));
      assert out == [] ==> prevBlank && IsBlank(lines[|lines| - 1]);
    } else {
      assert out == [];
    }
  }

  /** Appending the output of one more line: nothing when it is blank and
      follows a blank line, the empty line when it is blank otherwise, and
      the spaced line x, which is not blank, when it is not blank. */
  lemma CollapseStep(prevBlank: bool, c: seq<string>, before: bool, blank: bool, x: string, added: seq<string>)
    requires NoBlankRuns(prevBlank, c)
    requires c != [] ==> (IsBlank(c[|c| - 1]) <==> before)
    requires c == [] ==> (before <==> prevBlank)
    requires !blank ==> !IsBlank(x)
    requires added == if !blank then [x] else if before then [] else [""]
    ensures NoBlankRuns(prevBlank, c + added)
    ensures c + added != [] ==> (IsBlank((c + added)[|c + added| - 1]) <==> blank)
    ensures c + added == [] ==> prevBlank && blank
  {
    var out := c + added;
    forall j | 0 <= j < |out| && IsBlank(out[j])
      ensures out[j] == []
    {
      if j < |c| {
        assert out[j] == c[j];
      } else {
        assert out[j] == added[0];
      }
    }
    forall i, j | 0 <= i < j < |out| && j == i + 1
      ensures !(IsBlank(out[i]) && IsBlank(out[j]))
    {
      if j < |c| {
        assert out[i] == c[i] && out[j] == c[j];
      } else {
        assert out[i] == c[|c| - 1] && out[j] == added[0];
      }
    }
    if added != [] {
      assert out[|out| - 1] == added[0];
      if c == [] {
        assert out[0] == added[0];
      }
    } else {
      assert out == c;
    }
    if c != [] {
      assert out[0] == c[0];
    }
  }

  /** Running over a + b is running over a, then over b. */
  lemma {:induction false} RunAppend(d: Markdown.Doc, a: seq<string>, b: seq<string>)
    ensures Run(d, a + b) == Run(Run(d, a), b)
    decreases |b|
  {
    if b == [] {
      assert a + b == a;
    } else {
      var n := |b| - 1;
      assert (a + b)[..|a + b| - 1] == a + b[..n];
      assert (a + b)[|a + b| - 1] == b[n];
      RunAppend(d, a, b[..n]);
    }
  }

  /** After the lines, the text is inside a code block exactly when it was
      before and an even number of fences passed, or it was not and an odd
      number passed. */
  lemma {:induction false} CodeParity(d: Markdown.Doc, lines: seq<string>)
    ensures Run(d, lines).code <==> (d.code != (MarkdownFacts.Fences(lines) % 2 == 1))
  {
    if lines != [] {
      CodeParity(d, lines[..|lines| - 1]);
    }
  }

  /** Lines are only ever appended, at most one per input line, so the
      output never has more lines than the input. */
  lemma {:induction false} RunAppendsOnly(d: Markdown.Doc, lines: seq<string>)
    ensures |d.out| <= |Run(d, lines).out| <= |d.out| + |lines|
    ensures Run(d, lines).out[..|d.out|] == d.out
  {
    if lines != [] {
      var n := |lines| - 1;
      var prev := Run(d, lines[..n]);
      RunAppendsOnly(d, lines[..n]);
      var r := Run(d, lines);
      assert r == Emit(prev, lines[n]);
      assert r.out == prev.out || r.out == prev.out + [""] || r.out == prev.out + [LineOut(prev.code, lines[n])];
    }
  }

  /** Inside a code block, lines without a fence are output as they are,
      blank ones included, and the empty flag is off. */
  lemma {:induction false} CodeRun(d: Markdown.Doc, lines: seq<string>)
    requires d.code
    requires forall i :: 0 <= i < |lines| ==> !Markdown.IsFence(lines[i])
    ensures Run(d, lines).out == d.out + lines
    ensures Run(d, lines).code
    ensures lines != [] ==> !Run(d, lines).empty
  {
    if lines != [] {
      var n := |lines| - 1;
      CodeRun(d, lines[..n]);
      assert lines == lines[..n] + [lines[n]];
    }
  }

  /** A fenced code block is output as it is, fences and blank lines
      included, and leaves the text outside code again. */
  lemma FencedBlock(d: Markdown.Doc, open: string, body: seq<string>, close: string)
    requires !d.code && Markdown.IsFence(open) && Markdown.IsFence(close)
    requires forall i :: 0 <= i < |body| ==> !Markdown.IsFence(body[i])
    ensures Run(d, [open] + body + [close]).out == d.out + [open] + body + [close]
    ensures !Run(d, [open] + body + [close]).code
  {
    assert Run(d, [open]) == Emit(Run(d, []), open);
    assert !IsBlank(open) by {
      assert open[0] == '`';
    }
    var d1 := Run(d, [open]);
    assert d1.code && d1.out == d.out + [open];
    CodeRun(d1, body);
    RunAppend(d, [open], body);
    var d2 := Run(d, [open] + body);
    assert !IsBlank(close) by {
      assert close[0] == '`';
    }
    RunAppend(d, [open] + body, [close]);
    assert Run(d2, [close]) == Emit(Run(d2, []), close);
  }

  /** HandleText never outputs more lines than the text has. */
  lemma NoMoreLinesThanText(code: bool, empty: bool, text: string)
    ensures |Run(Markdown.Doc(code, empty, []), Split(text)).out| <= |Split(text)|
  {
    RunAppendsOnly(Markdown.Doc(code, empty, []), Split(text));
  }
}
