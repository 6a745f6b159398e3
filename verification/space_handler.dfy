/** The older Markdown handler (space/handler.go): the same line kinds as
    handler.go, spaced by `SpaceBlock.Block`, and a document loop that
    keeps one empty line for each run of blank lines outside code. */
module SpaceHandler {
  import opened GoStrings
  import opened Interleave
  import opened SpaceClassify
  import Spacing
  import opened SpaceBlock
  import Markdown

  /** What handleLine returns for a line outside a code block that is no
      fence (space/handler.go:74-90).  Only a quote has its leading spaces
      trimmed; header and list text is spaced as it is. */
  function BlockBody(line: string): string {
    if HasPrefix(line, "> ") then "> " + Block(TrimLeftSpaces(line[2..]))
    else if Markdown.HeaderMatch(line).Some? then
      var m := Markdown.HeaderMatch(line).value;
      line[..m] + Block(Markdown.TakeLine(line[m..]))
    else if Markdown.OrderedMatch(line).Some? then
      var m := Markdown.OrderedMatch(line).value;
      line[..m] + Block(Markdown.TakeLine(line[m..]))
    else if HasPrefix(line, "- ") then "- " + Block(line[2..])
    else Block(line)
  }

  /** What handleLine returns: fences and lines inside a code block as they
      are, everything else spaced by `BlockBody`.  The code flag moves as
      in handler.go (`Markdown.NextCode`). */
  function LineOut(code: bool, line: string): string {
    if code || Markdown.IsFence(line) then line else BlockBody(line)
  }

  /** One iteration of HandleText's loop (space/handler.go:47-60): outside
      code, the first blank line of a run is output as the empty line and
      the rest of the run is dropped. */
  function Emit(d: Markdown.Doc, line: string): Markdown.Doc {
    var code := Markdown.NextCode(d.code, line);
    var newLine := LineOut(d.code, line);
    var blank := !code && IsBlank(newLine);
    Markdown.Doc(code, blank, if !blank then d.out + [newLine] else if d.empty then d.out else d.out + [""])
  }

  /** The loop over lines from the state d. */
  function Run(d: Markdown.Doc, lines: seq<string>): Markdown.Doc {
    if lines == [] then d
    else Emit(Run(d, lines[..|lines| - 1]), lines[|lines| - 1])
  }

  /** The loop over one line more. */
  lemma RunLast(d: Markdown.Doc, lines: seq<string>, i: nat)
    requires i < |lines|
    ensures Run(d, lines[..i + 1]) == Emit(Run(d, lines[..i]), lines[i])
  {
    assert lines[..i + 1][..i] == lines[..i];
  }

  /** One iteration, given the new code flag and the spaced line. */
  lemma EmitIs(d: Markdown.Doc, line: string, code: bool, newLine: string)
    requires code == Markdown.NextCode(d.code, line) && newLine == LineOut(d.code, line)
    ensures Emit(d, line) == Markdown.Doc(code, !code && IsBlank(newLine),
      if !(!code && IsBlank(newLine)) then d.out + [newLine] else if d.empty then d.out else d.out + [""])
  {
  }

  /** MarkdownHandler: the text to format and the two flags.  The two
      compiled patterns it also holds are `Markdown.HeaderMatch` and
      `Markdown.OrderedMatch`. */
  class MarkdownHandler {
    var text: string
    var codeFlag: bool
    var emptyFlag: bool

    /** NewMarkdownHandler (space/handler.go:26-34). */
    constructor(text: string)
      ensures this.text == text && !codeFlag && !emptyFlag
    {
      this.text := text;
      codeFlag := false;
      emptyFlag := false;
    }

    /** handleBlock (space/handler.go:102-200). */
    method HandleBlock(line: string) returns (r: string)
      ensures r == Block(line)
    {
      var buffer: string := [];
      var length := |line|;
      var italicCnt, boldCnt, pointCnt := 0, 0, 0;
      var preRune := '\0';
      for i := 0 to length
        invariant Spacing.Scan(preRune, italicCnt, boldCnt, pointCnt) == BlockState(line, i)
        invariant buffer == Weave(line[..i], BlockGaps(line)[..i])
      {
        var written;
        written, preRune, italicCnt, boldCnt, pointCnt := BlockRune(line, i, preRune, italicCnt, boldCnt, pointCnt);
        BlockPrefixGrows(line, i);
        buffer := buffer + written;
      }
      assert line[..length] == line;
      assert BlockGaps(line)[..length] == BlockGaps(line);
      r := buffer;
    }

    /** handleLine (space/handler.go:66-100). */
    method HandleLine(line: string) returns (r: string)
      modifies this
      ensures codeFlag == Markdown.NextCode(old(codeFlag), line)
      ensures emptyFlag == old(emptyFlag) && text == old(text)
      ensures r == LineOut(old(codeFlag), line)
    {
      if !codeFlag {
        if HasPrefix(line, "```") {
          codeFlag := true;
          return line;
        }
        if HasPrefix(line, "> ") {
          r := HandleBlock(TrimLeftSpaces(line[2..]));
          return "> " + r;
        }
        var header := Markdown.HeaderMatch(line);
        if header.Some? {
          r := HandleBlock(Markdown.TakeLine(line[header.value..]));
          return line[..header.value] + r;
        }
        var ordered := Markdown.OrderedMatch(line);
        if ordered.Some? {
          r := HandleBlock(Markdown.TakeLine(line[ordered.value..]));
          return line[..ordered.value] + r;
        }
        if HasPrefix(line, "- ") {
          r := HandleBlock(line[2..]);
          return "- " + r;
        }
        r := HandleBlock(line);
      } else {
        if HasPrefix(line, "```") {
          codeFlag := false;
        }
        r := line;
      }
    }

    /** HandleText (space/handler.go:43-63). */
    method HandleText() returns (r: string)
      modifies this
      ensures text == old(text)
      ensures codeFlag == Run(Markdown.Doc(old(codeFlag), old(emptyFlag), []), Split(text)).code
      ensures emptyFlag == Run(Markdown.Doc(old(codeFlag), old(emptyFlag), []), Split(text)).empty
      ensures r == Join(Run(Markdown.Doc(old(codeFlag), old(emptyFlag), []), Split(text)).out)
    {
      var originalLines := Split(text);
      var outputLines: seq<string> := [];
      ghost var start := Markdown.Doc(codeFlag, emptyFlag, []);
      for i := 0 to |originalLines|
        invariant text == old(text)
        invariant Markdown.Doc(codeFlag, emptyFlag, outputLines) == Run(start, originalLines[..i])
      {
        ghost var before := Markdown.Doc(codeFlag, emptyFlag, outputLines);
        RunLast(start, originalLines, i);
        var newLine := HandleLine(originalLines[i]);
        EmitIs(before, originalLines[i], codeFlag, newLine);
        if IsBlank(newLine) && !codeFlag {
          if emptyFlag {
            continue;
          }
          newLine := "";
          emptyFlag := true;
        } else {
          emptyFlag := false;
        }
        outputLines := outputLines + [newLine];
      }
      assert originalLines[..|originalLines|] == originalLines;
      r := Join(outputLines);
    }
  }

  /** One pass of handleBlock's loop body (space/handler.go:111-196): write
      the rune at i, count it, write the spaces that follow it and move the
      previous-rune register. */
  method BlockRune(line: string, i: nat, preRune: char, italicCnt: int, boldCnt: int, pointCnt: int)
    returns (written: string, preRune': char, italicCnt': int, boldCnt': int, pointCnt': int)
    requires i < |line|
    ensures BlockStep(line, i, Spacing.Scan(preRune, italicCnt, boldCnt, pointCnt)).next
         == Spacing.Scan(preRune', italicCnt', boldCnt', pointCnt')
    ensures written == [line[i]] + Spaces(BlockStep(line, i, Spacing.Scan(preRune, italicCnt, boldCnt, pointCnt)).gap)
  {
    var length := |line|;
    var c := line[i];
    var buffer: string := [c];
    preRune', italicCnt', boldCnt', pointCnt' := preRune, italicCnt, boldCnt, pointCnt;
    if c == '*' {
      if preRune' == '*' {
        boldCnt' := boldCnt' + 1;
        italicCnt' := italicCnt' - 1;
      } else {
        italicCnt' := italicCnt' + 1;
      }
    }
    if c == '`' {
      pointCnt' := pointCnt' + 1;
    }
    ghost var step := BlockStep(line, i, Spacing.Scan(preRune, italicCnt, boldCnt, pointCnt));
    ghost var counted := Spacing.Scan(preRune', italicCnt', boldCnt', pointCnt');
    assert counted == Spacing.Count(Spacing.Scan(preRune, italicCnt, boldCnt, pointCnt), c);
    ghost var base: nat := 0;
    var extra: nat := 0;
    if i < length - 1 {
      var cn := line[i + 1];
      if IsZh(c) && IsGeneralEn(cn) {
        buffer := buffer + " ";
        base := 1;
      } else if IsGeneralEn(c) && IsZh(cn) {
        buffer := buffer + " ";
        base := 1;
      } else if (IsZh(c) && IsEnLeftBracket(cn)) || (IsEnRightBracket(c) && IsZh(cn)) {
        buffer := buffer + " ";
        base := 1;
      }
      assert base == BlockBase(c, cn) && buffer == [c] + Spaces(base);
      if IsZh(c) {
        if cn == '*' {
          if i < length - 2 {
            var cn2 := line[i + 2];
            if cn2 == '*' {
              if i < length - 3 {
                var cn3 := line[i + 3];
                if boldCnt' % 2 == 0 && IsGeneralEn(cn3) {
                  extra := 1;
                }
              }
            } else {
              if italicCnt' % 2 == 0 && IsGeneralEn(cn2) {
                extra := 1;
              }
            }
          }
        } else if cn == '`' {
          if i < length - 2 {
            var cn2 := line[i + 2];
            if pointCnt' % 2 == 0 && IsGeneralEn(cn2) {
              extra := 1;
            }
          }
        }
        assert extra == ZhMarkerGap(line, i, Spacing.Scan(preRune', italicCnt', boldCnt', pointCnt'));
      } else if c == '*' && IsZh(cn) {
        if preRune' == '*' {
          if boldCnt' % 2 == 0 {
            extra := 1;
          }
        } else {
          if italicCnt' % 2 == 0 {
            extra := 1;
          }
        }
      } else if c == '`' && IsZh(cn) {
        extra := 1;
      }
      buffer := buffer + Spaces(extra);
      preRune' := c;
      assert step == Spacing.Step(Spacing.Scan(preRune', italicCnt', boldCnt', pointCnt'), base + extra);
      RuneThenSpaces(c, base, extra);
    } else {
      assert step == Spacing.Step(counted, 0);
      assert buffer == [c] + Spaces(0);
    }
    written := buffer;
    assert step.next == Spacing.Scan(preRune', italicCnt', boldCnt', pointCnt');
    assert written == [line[i]] + Spaces(step.gap);
  }

  /** PlainTextHandler: plain text is not formatted; both of its methods
      return the empty string (space/handler.go:202-209). */
  class PlainTextHandler {
    var text: string

    /** NewPlainTextHander (space/handler.go:36-40). */
    constructor(text: string)
      ensures this.text == text
    {
      this.text := text;
    }

    /** HandleText: the empty string, whatever the text. */
    method HandleText() returns (r: string)
      ensures r == ""
    {
      r := "";
    }

    /** handleLine: the empty string, whatever the line. */
    method HandleLine(line: string) returns (r: string)
      ensures r == ""
    {
      r := "";
    }
  }
}
