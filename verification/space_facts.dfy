/** What handleBlock (space/handler.go:102-200) promises, and how it
    relates to doFormat of handler.go. */
module SpaceFacts {
  import opened SpaceClassify
  import opened Interleave
  import Spacing
  import SpacingFacts
  import opened SpaceBlock

  /** At most one space follows a rune, and none follows the last rune. */
  lemma BlockGapAtMostOne(line: string, i: nat)
    requires i < |line|
    ensures BlockGaps(line)[i] <= 1
    ensures i == |line| - 1 ==> BlockGaps(line)[i] == 0
  {
    ZhNotGeneralEn(line[i]);
    MarkupIsNeutral('*');
    MarkupIsNeutral('`');
    if i + 1 < |line| {
      ZhNotGeneralEn(line[i + 1]);
    }
  }

  /** handleBlock only inserts spaces: at most one after each rune but the
      last, and deleting them gives the span back. */
  lemma BlockInsertsOnlySpaces(line: string)
    ensures SpacedFrom(Block(line), line)
    ensures Unweave(Block(line), BlockGaps(line)) == line
  {
    var g := BlockGaps(line);
    forall i | 0 <= i < |g| ensures g[i] <= 1 && (i == |g| - 1 ==> g[i] == 0) {
      BlockGapAtMostOne(line, i);
    }
    WeaveSpaced(line, g);
    UnweaveWeave(line, g);
  }

  /** handleBlock changes nothing but spaces. */
  lemma BlockKeepsText(line: string)
    ensures Squeeze(Block(line)) == Squeeze(line)
  {
    SqueezeWeave(line, BlockGaps(line));
  }

  /** Between two runes neither of which is '*' or '`', exactly one space
      is inserted iff ideograph/Latin, Latin/ideograph, ideograph/left
      bracket or right bracket/ideograph, whatever else the span holds. */
  lemma BlockBaseRule(line: string, i: nat)
    requires i + 1 < |line|
    requires !IsMarkdownEnSymbol(line[i]) && !IsMarkdownEnSymbol(line[i + 1])
    ensures BlockGaps(line)[i] <= 1
    ensures var c, n := line[i], line[i + 1];
      BlockGaps(line)[i] == 1 <==>
        (IsZh(c) && IsGeneralEn(n)) || (IsGeneralEn(c) && IsZh(n)) ||
        (IsZh(c) && IsEnLeftBracket(n)) || (IsEnRightBracket(c) && IsZh(n))
  {
    BlockGapAtMostOne(line, i);
  }

  /** An ideograph before '**' gets a space iff the bold counter is even and
      the rune after '**' exists and is Latin; before a single '*' iff an
      even number of '*' precede it and the rune after the '*' is Latin. */
  lemma BlockZhBeforeStar(line: string, i: nat)
    requires i + 1 < |line| && IsZh(line[i]) && line[i + 1] == '*'
    ensures BlockGaps(line)[i] <= 1
    ensures BlockGaps(line)[i] == 1 <==>
      if i + 2 < |line| && line[i + 2] == '*' then
        i + 3 < |line| && Spacing.Even(BlockState(line, i).bold) && IsGeneralEn(line[i + 3])
      else
        i + 2 < |line| && Spacing.Even(multiset(line[..i])['*']) && IsGeneralEn(line[i + 2])
  {
    BlockGapAtMostOne(line, i);
    MarkupIsNeutral('*');
    BlockItalicParity(line, i);
  }

  /** An ideograph before '`' gets a space iff an even number of '`'
      precede it and the rune after the '`' exists and is Latin. */
  lemma BlockZhBeforeBackQuote(line: string, i: nat)
    requires i + 1 < |line| && IsZh(line[i]) && line[i + 1] == '`'
    ensures BlockGaps(line)[i] <= 1
    ensures BlockGaps(line)[i] == 1 <==>
      i + 2 < |line| && Spacing.Even(multiset(line[..i])['`']) && IsGeneralEn(line[i + 2])
  {
    BlockGapAtMostOne(line, i);
    MarkupIsNeutral('`');
    BlockCounters(line, i);
  }

  /** The lookahead of an ideograph before a marker is the rule of doZhStar
      and doZhBackQuote in handler.go: the two handlers agree on it. */
  lemma ZhMarkerGapAgrees(line: string, i: nat, s1: Scan)
    requires i + 1 < |line|
    ensures ZhMarkerGap(line, i, s1) ==
      if line[i + 1] == '*' then Spacing.ZhStarGap(line, i, s1.bold, s1.italic)
      else if line[i + 1] == '`' then Spacing.ZhBackQuoteGap(line, i, s1.backQuote)
      else 0
  {
    if i + 2 < |line| {
      AgreesWithClassify(line[i + 2]);
    }
    if i + 3 < |line| {
      AgreesWithClassify(line[i + 3]);
    }
  }

  /** A span without any ideograph is returned unchanged. */
  lemma BlockNoZhUnchanged(line: string)
    requires forall i :: 0 <= i < |line| ==> !IsZh(line[i])
    ensures Block(line) == line
  {
    var g := BlockGaps(line);
    forall i | 0 <= i < |g| ensures g[i] == 0 {
    }
    WeaveNoGaps(line, g);
  }

  /** The previous-rune register holds the previous rune. */
  lemma BlockPreIsPrevious(line: string, k: nat)
    requires 1 <= k < |line|
    ensures BlockState(line, k).pre == line[k - 1]
  {
  }

  /** italic + 2 * bold counts the '*' seen so far, the backquote counter
      the '`' seen so far. */
  lemma BlockCounters(line: string, k: nat)
    requires k <= |line|
    ensures BlockState(line, k).italic + 2 * BlockState(line, k).bold == multiset(line[..k])['*']
    ensures BlockState(line, k).backQuote == multiset(line[..k])['`']
  {
    BlockTally(line, k, BlockState(line, k));
  }

  /** `BlockCounters` for the registers st at k. */
  lemma {:induction false} BlockTally(line: string, k: nat, st: Scan)
    requires k <= |line| && st == BlockState(line, k)
    ensures st.italic + 2 * st.bold == multiset(line[..k])['*']
    ensures st.backQuote == multiset(line[..k])['`']
  {
    if k > 0 {
      var prev := BlockState(line, k - 1);
      var c := line[k - 1];
      BlockTally(line, k - 1, prev);
      var counted := Spacing.Count(prev, c);
      assert st.italic == counted.italic && st.bold == counted.bold && st.backQuote == counted.backQuote;
      assert line[..k] == line[..k - 1] + [c];
      SpacingFacts.CountTally(prev, c, multiset(line[..k - 1]));
    }
  }

  /** A '`' before an ideograph always gets a space, whether it opens or
      closes inline code. */
  lemma BlockBackQuoteBeforeZh(line: string, i: nat)
    requires i + 1 < |line| && line[i] == '`' && IsZh(line[i + 1])
    ensures BlockGaps(line)[i] == 1
  {
    MarkupIsNeutral('`');
  }

  /** A '*' before an ideograph gets a space iff, after '**', the bold
      counter is even, and otherwise an even number of '*' has been seen
      up to and including it. */
  lemma BlockStarBeforeZh(line: string, i: nat)
    requires i + 1 < |line| && line[i] == '*' && IsZh(line[i + 1])
    ensures BlockGaps(line)[i] == 1 <==>
      if i >= 1 && line[i - 1] == '*' then Spacing.Even(BlockState(line, i + 1).bold)
      else Spacing.Even(multiset(line[..i + 1])['*'])
    ensures BlockGaps(line)[i] <= 1
  {
    BlockStarStep(line, i);
    BlockGapAtMostOne(line, i);
    var pre := BlockState(line, i).pre;
    if i >= 1 {
      BlockPreIsPrevious(line, i);
      assert pre == line[i - 1];
    }
    assert pre == '*' <==> i >= 1 && line[i - 1] == '*';
    BlockItalicParity(line, i + 1);
  }

  /** The italic counter is even exactly when an even number of '*' has
      been seen. */
  lemma BlockItalicParity(line: string, k: nat)
    requires k <= |line|
    ensures Spacing.Even(BlockState(line, k).italic) <==> Spacing.Even(multiset(line[..k])['*'])
  {
    BlockCounters(line, k);
  }

  /** The step on a '*' before an ideograph, in terms of the registers. */
  lemma BlockStarStep(line: string, i: nat)
    requires i + 1 < |line| && line[i] == '*' && IsZh(line[i + 1])
    ensures BlockGaps(line)[i] == 1 <==>
      if BlockState(line, i).pre == '*' then Spacing.Even(BlockState(line, i + 1).bold)
      else Spacing.Even(BlockState(line, i + 1).italic)
    ensures i == 0 ==> BlockState(line, i).pre != '*'
  {
    MarkupIsNeutral('*');
  }

  /** On a span without '*' and '`' the two engines agree. */
  lemma EnginesAgree(line: string)
    requires '*' !in line && '`' !in line
    ensures Block(line) == Spacing.Format(line)
  {
    forall i | 0 <= i < |line|
      ensures BlockGaps(line)[i] == Spacing.Gaps(line)[i]
    {
      AgreesWithClassify(line[i]);
      if i + 1 < |line| {
        AgreesWithClassify(line[i + 1]);
      }
    }
    assert BlockGaps(line) == Spacing.Gaps(line);
  }
}
