/** Worked examples of the two document loops on blank lines. */
module DocCases {
  import opened GoStrings
  import opened Wrappers
  import Links
  import Interleave
  import Spacing
  import SpaceBlock
  import Markdown
  import MarkdownFacts
  import SpaceHandler
  import SpaceHandlerFacts

  /** A one-letter line is left as it is by both engines. */
  lemma PlainRune(line: string)
    requires |line| == 1 && 'a' <= line[0] <= 'z'
    ensures Markdown.Body(line) == line && SpaceHandler.BlockBody(line) == line
    ensures !IsBlank(line) && '\n' !in line && !Markdown.IsFence(line)
  {
    assert !HasPrefix(line, "> ") && !HasPrefix(line, "- ");
    assert Markdown.HeaderMatch(line) == None;
    assert Markdown.OrderedMatch(line) == None;
    assert Links.LinkAt(line, 0) == None;
    assert Links.FindLink(line, 1) == None;
    assert Links.FindLink(line, 0) == None;
    assert Spacing.Gaps(line) == [0];
    assert SpaceBlock.BlockGaps(line) == [0];
    Interleave.WeaveNoGaps(line, Spacing.Gaps(line));
    Interleave.WeaveNoGaps(line, SpaceBlock.BlockGaps(line));
    assert Links.AllLinks(line, 0) == [];
  }

  /** A line, three newlines and a line split into the two lines with two
      empty lines between them. */
  lemma SplitBlankRun(x: string, y: string)
    requires forall i :: 0 <= i < |x| ==> x[i] != '\n'
    requires forall i :: 0 <= i < |y| ==> y[i] != '\n'
    ensures Split(x + "\n\n\n" + y) == [x, "", "", y]
  {
    var text := x + "\n\n\n" + y;
    var t1 := text[|x| + 1..];
    var t2 := t1[1..];
    var t3 := t2[1..];
    assert text[..|x|] == x && t1 == "\n\n" + y && t2 == "\n" + y && t3 == y;
    SplitAt(text, |x|);
    SplitAt(t1, 0);
    SplitAt(t2, 0);
    SplitWhole(t3);
    assert Split(t2) == [t2[..0]] + [t3];
    assert Split(t1) == [t1[..0]] + Split(t2);
    assert Split(text) == [text[..|x|]] + Split(t1);
    FourLines(text[..|x|], t1[..0], t2[..0], t3, x, "", "", y);
  }

  /** Evaluation helper for `SplitBlankRun`: four equal lines make equal
      lists. */
  lemma FourLines(a: string, b: string, c: string, d: string, a': string, b': string, c': string, d': string)
    requires a == a' && b == b' && c == c' && d == d'
    ensures [a] + ([b] + ([c] + [d])) == [a', b', c', d']
  {
  }

  /** Evaluation helper for `SplitBlankRun`: a line without a newline
      splits into itself. */
  lemma SplitWhole(s: string)
    requires forall i :: 0 <= i < |s| ==> s[i] != '\n'
    ensures Split(s) == [s]
  {
  }

  /** Evaluation helper for `SplitBlankRun`: one step of Split at the
      first newline, at k. */
  lemma SplitAt(s: string, k: nat)
    requires k < |s| && s[k] == '\n' && forall i :: 0 <= i < k ==> s[i] != '\n'
    ensures Split(s) == [s[..k]] + Split(s[k + 1..])
  {
    assert FirstNewline(s) == k;
  }

  /** Kept drops the blank lines between two lines. */
  lemma KeptAroundBlanks(x: string, y: string)
    requires !IsBlank(x) && !IsBlank(y)
    ensures MarkdownFacts.Kept([x, "", "", y]) == [Markdown.Body(x), Markdown.Body(y)]
  {
    var lines := [x, "", "", y];
    assert IsBlank("");
    assert lines[..3] == [x, "", ""] && lines[..3][..2] == [x, ""] && lines[..1] == [x] && [x][..0] == [];
    assert MarkdownFacts.Kept([x]) == [Markdown.Body(x)];
    assert MarkdownFacts.Kept([x, ""]) == [Markdown.Body(x)];
    assert MarkdownFacts.Kept([x, "", ""]) == [Markdown.Body(x)];
  }

  /** Collapse keeps one empty line for the blank lines between two lines. */
  lemma CollapseAroundBlanks(x: string, y: string)
    requires !IsBlank(x) && !IsBlank(y)
    ensures SpaceHandlerFacts.Collapse(false, [x, "", "", y]) == [SpaceHandler.BlockBody(x), "", SpaceHandler.BlockBody(y)]
  {
    var lines := [x, "", "", y];
    assert IsBlank("");
    assert lines[..3] == [x, "", ""] && lines[..3][..2] == [x, ""] && lines[..1] == [x] && [x][..0] == [];
    assert SpaceHandlerFacts.Collapse(false, [x]) == [SpaceHandler.BlockBody(x)];
    assert SpaceHandlerFacts.Collapse(false, [x, ""]) == [SpaceHandler.BlockBody(x), ""];
    assert SpaceHandlerFacts.Collapse(false, [x, "", ""]) == [SpaceHandler.BlockBody(x), ""];
  }

  /** Two plain lines around two empty lines, through FormatMarkdown's
      loop. */
  lemma DropsAroundBlanks(x: string, y: string)
    requires !IsBlank(x) && !IsBlank(y) && '\n' !in x && '\n' !in y
    requires !Markdown.IsFence(x) && !Markdown.IsFence(y)
    ensures Markdown.Run(Markdown.Doc(false, false, []), [x, "", "", y]).out == [Markdown.Body(x), Markdown.Body(y)]
  {
    PlainLines(x, y);
    MarkdownFacts.PlainRun(Markdown.Doc(false, false, []), [x, "", "", y]);
    KeptAroundBlanks(x, y);
  }

  /** Two plain lines around two empty lines, through the older
      HandleText's loop. */
  lemma CollapsesAroundBlanks(x: string, y: string)
    requires !IsBlank(x) && !IsBlank(y) && '\n' !in x && '\n' !in y
    requires !Markdown.IsFence(x) && !Markdown.IsFence(y)
    ensures SpaceHandler.Run(Markdown.Doc(false, false, []), [x, "", "", y]).out
         == [SpaceHandler.BlockBody(x), "", SpaceHandler.BlockBody(y)]
  {
    PlainLines(x, y);
    SpaceHandlerFacts.PlainRun(Markdown.Doc(false, false, []), [x, "", "", y]);
    CollapseAroundBlanks(x, y);
  }

  /** Evaluation helper for the document cases: no line of x, two empty
      lines and y is a fence or holds a newline. */
  lemma PlainLines(x: string, y: string)
    requires '\n' !in x && '\n' !in y && !Markdown.IsFence(x) && !Markdown.IsFence(y)
    ensures forall i :: 0 <= i < |[x, "", "", y]| ==> '\n' !in [x, "", "", y][i] && !Markdown.IsFence([x, "", "", y][i])
  {
    assert !Markdown.IsFence("");
  }

  /** FormatMarkdown drops every blank line outside code: of "a", two
      empty lines and "b" it keeps "a" and "b". */
  lemma DropsBlankRun(text: string)
    requires text == "a\n\n\nb"
    ensures Markdown.Run(Markdown.Doc(false, false, []), Split(text)).out == ["a", "b"]
  {
    assert text == "a" + "\n\n\n" + "b";
    SplitBlankRun("a", "b");
    PlainRune("a");
    PlainRune("b");
    DropsAroundBlanks("a", "b");
  }

  /** The older HandleText keeps one empty line for the run: of the same
      text it keeps "a", "" and "b". */
  lemma CollapsesBlankRun(text: string)
    requires text == "a\n\n\nb"
    ensures SpaceHandler.Run(Markdown.Doc(false, false, []), Split(text)).out == ["a", "", "b"]
  {
    assert text == "a" + "\n\n\n" + "b";
    SplitBlankRun("a", "b");
    PlainRune("a");
    PlainRune("b");
    CollapsesAroundBlanks("a", "b");
  }
}
