/** The Markdown line formatter of handler.go: formatLine, which spaces
    one line according to its kind, and FormatMarkdown, which runs it over
    a document and drops blank lines outside code blocks.

    The two flags of handler.go:34-37 are package-level variables that
    keep their values from one call to the next; here they are the fields
    of a `Formatter` object.  The spec functions `NextCode`, `LineOut`,
    `Emit` and `Run` say what the methods compute; the lemmas at the end
    say what that means for a document. */
module Markdown {
  import opened Wrappers
  import opened GoStrings
  import opened Interleave
  import opened Spacing
  import SpacingFacts
  import opened Links

  /** A fenced code block starts or ends with a line that begins with
      three backquotes. */
  predicate IsFence(line: string) {
    HasPrefix(line, "```")
  }

  /** RE2's \s: tab, newline, form feed, carriage return and space. */
  predicate Re2Space(c: char) {
    c == '\t' || c == '\n' || c == '\U{000C}' || c == '\r' || c == ' '
  }

  /** Every rune is '#'. */
  predicate AllHashes(s: string) {
    forall i :: 0 <= i < |s| ==> s[i] == '#'
  }

  /** Every rune is an ASCII digit. */
  predicate AllDigits(s: string) {
    forall i :: 0 <= i < |s| ==> '0' <= s[i] <= '9'
  }

  /** The number of '#' the line starts with. */
  function Hashes(s: string): (n: nat)
    ensures n <= |s| && AllHashes(s[..n])
    ensures n < |s| ==> s[n] != '#'
  {
    if s == [] || s[0] != '#' then 0
    else
      var n := 1 + Hashes(s[1..]);
      assert s[..n] == [s[0]] + s[1..][..n - 1];
      n
  }

  /** The number of ASCII digits the line starts with (RE2's \d). */
  function Digits(s: string): (n: nat)
    ensures n <= |s| && AllDigits(s[..n])
    ensures n < |s| ==> !('0' <= s[n] <= '9')
  {
    if s == [] || !('0' <= s[0] <= '9') then 0
    else
      var n := 1 + Digits(s[1..]);
      assert s[..n] == [s[0]] + s[1..][..n - 1];
      n
  }

  /** headerRegex `^(#+?\s)(.*)`: the length of group 1 when the line is a
      header: one or more '#' and a \s rune.  The lazy `#+?` still has to
      take every leading '#', since the \s after it is no '#'. */
  function HeaderMatch(line: string): (r: Option<nat>)
    ensures r.Some? ==> 2 <= r.value <= |line| && AllHashes(line[..r.value - 1]) && Re2Space(line[r.value - 1])
    ensures r.None? ==> forall k :: 1 <= k < |line| && Re2Space(line[k]) ==> !AllHashes(line[..k])
  {
    var n := Hashes(line);
    if 1 <= n < |line| && Re2Space(line[n]) then Some(n + 1)
    else
      assert forall k :: n < k <= |line| ==> line[..k][n] == line[n];
      None
  }

  /** orderedListRegex `^(\d+\.\s)(.*)`: the length of group 1 when the
      line is an ordered-list item: one or more ASCII digits, '.' and a \s
      rune. */
  function OrderedMatch(line: string): (r: Option<nat>)
    ensures r.Some? ==>
      3 <= r.value <= |line| && AllDigits(line[..r.value - 2]) && line[r.value - 2] == '.' && Re2Space(line[r.value - 1])
    ensures r.None? ==> forall k :: 1 <= k && k + 1 < |line| && line[k] == '.' && Re2Space(line[k + 1]) ==>
      !AllDigits(line[..k])
  {
    var n := Digits(line);
    if 1 <= n && n + 1 < |line| && line[n] == '.' && Re2Space(line[n + 1]) then Some(n + 2)
    else
      assert forall k :: n < k <= |line| ==> line[..k][n] == line[n];
      None
  }

  /** Group 2, `(.*)`: the rest of the line up to the first newline. */
  function TakeLine(s: string): (r: string)
    ensures |r| <= |s| && r == s[..|r|] && '\n' !in r
    ensures |r| < |s| ==> s[|r|] == '\n'
  {
    if s == [] || s[0] == '\n' then []
    else
      var r := [s[0]] + TakeLine(s[1..]);
      assert s[..|r|] == [s[0]] + s[1..][..|r| - 1];
      r
  }

  /** What formatLine returns for a line outside a code block that is no
      fence (handler.go:103-128), in the order the kinds are tried: quote,
      header, ordered-list item, unordered-list item, a line with links,
      plain text. */
  function Body(line: string): string {
    if HasPrefix(line, "> ") then "> " + Format(TrimLeftSpaces(line[2..]))
    else if HeaderMatch(line).Some? then
      var m := HeaderMatch(line).value;
      line[..m] + Format(TrimLeftSpaces(TakeLine(line[m..])))
    else if OrderedMatch(line).Some? then
      var m := OrderedMatch(line).value;
      line[..m] + Format(TrimLeftSpaces(TakeLine(line[m..])))
    else if HasPrefix(line, "- ") then "- " + Format(TrimLeftSpaces(line[2..]))
    else if AllLinks(line, 0) != [] then WithLinks(line, AllLinks(line, 0))
    else Format(line)
  }

  /** The code-block flag after formatLine has seen line: a fence toggles
      it, any other line leaves it. */
  function NextCode(code: bool, line: string): (r: bool)
    ensures r <==> (code != IsFence(line))
  {
    if code then !IsFence(line) else IsFence(line)
  }

  /** What formatLine returns: fences and lines inside a code block as they
      are, everything else spaced by `Body`. */
  function LineOut(code: bool, line: string): string {
    if code || IsFence(line) then line else Body(line)
  }

  /** The state of FormatMarkdown's loop: the two flags and the lines
      output so far. */
  datatype Doc = Doc(code: bool, empty: bool, out: seq<string>)

  /** One iteration of FormatMarkdown's loop (handler.go:62-82): format the
      line, then keep it inside a code block, drop it if it is blank, and
      keep it otherwise. */
  function Emit(d: Doc, line: string): Doc {
    var code := NextCode(d.code, line);
    var newLine := LineOut(d.code, line);
    var dropped := !code && IsBlank(newLine);
    Doc(code, dropped, if dropped then d.out else d.out + [newLine])
  }

  /** The loop over lines from the state d. */
  function Run(d: Doc, lines: seq<string>): Doc {
    if lines == [] then d
    else Emit(Run(d, lines[..|lines| - 1]), lines[|lines| - 1])
  }

  /** The loop over one line more. */
  lemma RunLast(d: Doc, lines: seq<string>, i: nat)
    requires i < |lines|
    ensures Run(d, lines[..i + 1]) == Emit(Run(d, lines[..i]), lines[i])
  {
    assert lines[..i + 1][..i] == lines[..i];
  }

  /** One iteration, given the new code flag and the formatted line. */
  lemma EmitIs(d: Doc, line: string, code: bool, newLine: string)
    requires code == NextCode(d.code, line) && newLine == LineOut(d.code, line)
    ensures Emit(d, line) == Doc(code, !code && IsBlank(newLine),
      if !code && IsBlank(newLine) then d.out else d.out + [newLine])
  {
  }

  /** The object holding the two package-level flags of handler.go. */
  class Formatter {
    /** Inside a fenced code block. */
    var codeFlag: bool
    /** The previous line outside code was blank. */
    var emptyFlag: bool

    /** Both flags start as Go's zero value. */
    constructor()
      ensures !codeFlag && !emptyFlag
    {
      codeFlag := false;
      emptyFlag := false;
    }

    /** formatLine (handler.go:88-129). */
    method FormatLine(line: string) returns (r: string)
      modifies this
      ensures codeFlag == NextCode(old(codeFlag), line) && emptyFlag == old(emptyFlag)
      ensures r == LineOut(old(codeFlag), line)
    {
      if codeFlag {
        if HasPrefix(line, "```") {
          codeFlag := false;
        }
        return line;
      }
      if HasPrefix(line, "```") {
        codeFlag := true;
        return line;
      }
      if HasPrefix(line, "> ") {
        r := DoFormat(TrimLeftSpaces(line[2..]));
        return "> " + r;
      }
      var header := HeaderMatch(line);
      if header.Some? {
        r := DoFormat(TrimLeftSpaces(TakeLine(line[header.value..])));
        return line[..header.value] + r;
      }
      var ordered := OrderedMatch(line);
      if ordered.Some? {
        r := DoFormat(TrimLeftSpaces(TakeLine(line[ordered.value..])));
        return line[..ordered.value] + r;
      }
      if HasPrefix(line, "- ") {
        r := DoFormat(TrimLeftSpaces(line[2..]));
        return "- " + r;
      }
      var links := AllLinks(line, 0);
      if |links| != 0 {
        r := DoFormatWithLink(line, links);
        return r;
      }
      r := DoFormat(line);
    }

    /** FormatMarkdown (handler.go:54-86): split the text into lines, run
        formatLine over them and join what is kept. */
    method FormatMarkdown(text: string) returns (r: string)
      modifies this
      ensures codeFlag == Run(Doc(old(codeFlag), old(emptyFlag), []), Split(text)).code
      ensures emptyFlag == Run(Doc(old(codeFlag), old(emptyFlag), []), Split(text)).empty
      ensures r == Join(Run(Doc(old(codeFlag), old(emptyFlag), []), Split(text)).out)
    {
      var lines := Split(text);
      var outputLines: seq<string> := [];
      ghost var start := Doc(codeFlag, emptyFlag, []);
      for i := 0 to |lines|
        invariant Doc(codeFlag, emptyFlag, outputLines) == Run(start, lines[..i])
      {
        ghost var before := Doc(codeFlag, emptyFlag, outputLines);
        RunLast(start, lines, i);
        var newLine := FormatLine(lines[i]);
        EmitIs(before, lines[i], codeFlag, newLine);
        if codeFlag {
          emptyFlag := false;
          outputLines := outputLines + [newLine];
          continue;
        }
        if IsBlank(newLine) {
          if emptyFlag {
            continue;
          }
          emptyFlag := true;
        } else {
          emptyFlag := false;
          outputLines := outputLines + [newLine];
        }
      }
      assert lines[..|lines|] == lines;
      r := Join(outputLines);
    }
  }
}
