/** The spacing engine of the older Markdown handler, handleBlock
    (space/handler.go:102-200), as spec functions.  It differs from the
    engine of handler.go in three ways: the previous-rune register follows
    every rune, '`' before an ideograph always gets a space, and '*' before
    an ideograph looks at no rune before it.  The registers and the marker
    counting are the same and are shared with `Spacing`. */
module SpaceBlock {
  import opened SpaceClassify
  import opened Interleave
  import Spacing

  type Scan = Spacing.Scan

  /** The base rule between a rune and the next one
      (space/handler.go:128-137). */
  function BlockBase(c: char, n: char): nat {
    if IsZh(c) && IsGeneralEn(n) then 1
    else if IsGeneralEn(c) && IsZh(n) then 1
    else if (IsZh(c) && IsEnLeftBracket(n)) || (IsEnRightBracket(c) && IsZh(n)) then 1
    else 0
  }

  /** The spaces an ideograph at i writes before the marker that follows it
      (space/handler.go:140-176), from the counters after counting it. */
  function ZhMarkerGap(line: string, i: nat, s1: Scan): nat
    requires i + 1 < |line|
  {
    var n := line[i + 1];
    if n == '*' then
      if i < |line| - 2 then
        if line[i + 2] == '*' then
          if i < |line| - 3 && Spacing.Even(s1.bold) && IsGeneralEn(line[i + 3]) then 1 else 0
        else if Spacing.Even(s1.italic) && IsGeneralEn(line[i + 2]) then 1
        else 0
      else 0
    else if n == '`' then
      if i < |line| - 2 && Spacing.Even(s1.backQuote) && IsGeneralEn(line[i + 2]) then 1 else 0
    else 0
  }

  /** One iteration of handleBlock's loop on the rune at i, from the
      registers st: the spaces written after the rune and the registers for
      the next iteration. */
  function BlockStep(line: string, i: nat, st: Scan): Spacing.Step
    requires i < |line|
  {
    var c := line[i];
    var s1 := Spacing.Count(st, c);
    if i < |line| - 1 then
      var n := line[i + 1];
      var extra :=
        if IsZh(c) then ZhMarkerGap(line, i, s1)
        else if c == '*' && IsZh(n) then
          if st.pre == '*' then (if Spacing.Even(s1.bold) then 1 else 0)
          else if Spacing.Even(s1.italic) then 1 else 0
        else if c == '`' && IsZh(n) then 1
        else 0;
      Spacing.Step(s1.(pre := c), BlockBase(c, n) + extra)
    else Spacing.Step(s1, 0)
  }

  /** The registers when the scan reaches index k. */
  function BlockState(line: string, k: nat): Scan
    requires k <= |line|
  {
    if k == 0 then Spacing.Start else BlockStep(line, k - 1, BlockState(line, k - 1)).next
  }

  /** The number of spaces written after each rune. */
  function BlockGaps(line: string): (g: seq<nat>)
    ensures |g| == |line|
  {
    seq(|line|, i requires 0 <= i < |line| => BlockStep(line, i, BlockState(line, i)).gap)
  }

  /** The output of handleBlock. */
  function Block(line: string): string {
    Weave(line, BlockGaps(line))
  }

  /** Writing rune i and the spaces after it extends the output of the
      first i runes to that of the first i + 1 runes. */
  lemma BlockPrefixGrows(line: string, i: nat)
    requires i < |line|
    ensures Weave(line[..i + 1], BlockGaps(line)[..i + 1])
         == Weave(line[..i], BlockGaps(line)[..i]) + [line[i]] + Spaces(BlockGaps(line)[i])
  {
    assert line[..i + 1] == line[..i] + [line[i]];
    assert BlockGaps(line)[..i + 1] == BlockGaps(line)[..i] + [BlockGaps(line)[i]];
    WeaveSnoc(line[..i], BlockGaps(line)[..i], line[i], BlockGaps(line)[i]);
  }
}
