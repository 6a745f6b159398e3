/** What doFormat (handler.go:193-349) promises about its output. */
module SpacingFacts {
  import opened Classify
  import opened Interleave
  import opened Spacing

  /** At most one space follows a rune, and none follows the last rune:
      the rule-specific spaces and the base rule never fire together, and
      the two tests of doBoldStarZh exclude each other. */
  lemma GapAtMostOne(line: string, i: nat)
    requires i < |line|
    ensures Gaps(line)[i] <= 1
    ensures i == |line| - 1 ==> Gaps(line)[i] == 0
  {
    var c := line[i];
    ZhNotGeneralEn(c);
    MarkupIsNeutral('*');
    MarkupIsNeutral('`');
    if i + 1 < |line| {
      ZhNotGeneralEn(line[i + 1]);
    }
  }

  /** doFormat only inserts spaces: its output is the span with at most one
      space after each rune but the last, and deleting the inserted spaces
      gives the span back. */
  lemma FormatInsertsOnlySpaces(line: string)
    ensures SpacedFrom(Format(line), line)
    ensures Unweave(Format(line), Gaps(line)) == line
    ensures |line| <= |Format(line)| < 2 * |line| || line == Format(line) == []
  {
    var g := Gaps(line);
    forall i | 0 <= i < |g| ensures g[i] <= 1 && (i == |g| - 1 ==> g[i] == 0) {
      GapAtMostOne(line, i);
    }
    WeaveSpaced(line, g);
    UnweaveWeave(line, g);
    SpacedLength(Format(line), line);
  }

  /** The length of a spacing: between |s| and 2|s| - 1. */
  lemma {:induction false} SpacedLength(out: string, s: string)
    requires SpacedFrom(out, s)
    ensures |s| <= |out| && (s != [] ==> |out| < 2 * |s|)
    decreases |s|
  {
    if |s| > 1 {
      if SpacedFrom(out[1..], s[1..]) {
        SpacedLength(out[1..], s[1..]);
      } else {
        SpacedLength(out[2..], s[1..]);
      }
    }
  }

  /** A span without any ideograph is returned unchanged: every rule needs
      an ideograph on one side of the boundary. */
  lemma NoZhUnchanged(line: string)
    requires forall i :: 0 <= i < |line| ==> !IsZh(line[i])
    ensures Format(line) == line
  {
    var g := Gaps(line);
    forall i | 0 <= i < |g| ensures g[i] == 0 {
    }
    WeaveNoGaps(line, g);
  }

  /** Between two runes neither of which is '*' or '`', exactly one space
      is inserted iff ideograph/Latin, Latin/ideograph, ideograph/left
      bracket or right bracket/ideograph. */
  lemma BaseRule(line: string, i: nat)
    requires i + 1 < |line|
    requires !IsMarkdownEnSymbol(line[i]) && !IsMarkdownEnSymbol(line[i + 1])
    ensures Gaps(line)[i] <= 1
    ensures var c, n := line[i], line[i + 1];
      Gaps(line)[i] == 1 <==>
        (IsZh(c) && IsGeneralEn(n)) || (IsGeneralEn(c) && IsZh(n)) ||
        (IsZh(c) && IsEnLeftBracket(n)) || (IsEnRightBracket(c) && IsZh(n))
  {
    GapAtMostOne(line, i);
  }

  /** The counters, read independently of the scan: italic + 2 * bold is
      the number of '*' seen so far, and the backquote counter the number
      of '`' seen so far. */
  lemma CountersCountMarkers(line: string, k: nat)
    requires k <= |line|
    ensures StateAt(line, k).italic + 2 * StateAt(line, k).bold == multiset(line[..k])['*']
    ensures StateAt(line, k).backQuote == multiset(line[..k])['`']
  {
    Tally(line, k, StateAt(line, k));
  }

  /** `CountersCountMarkers` for the registers st at k. */
  lemma {:induction false} Tally(line: string, k: nat, st: Scan)
    requires k <= |line| && st == StateAt(line, k)
    ensures st.italic + 2 * st.bold == multiset(line[..k])['*']
    ensures st.backQuote == multiset(line[..k])['`']
  {
    if k > 0 {
      var prev := StateAt(line, k - 1);
      var c := line[k - 1];
      Tally(line, k - 1, prev);
      var counted := Count(prev, c);
      assert st.italic == counted.italic && st.bold == counted.bold && st.backQuote == counted.backQuote;
      assert line[..k] == line[..k - 1] + [c];
      CountTally(prev, c, multiset(line[..k - 1]));
    }
  }

  /** Counting one more rune keeps the counters in step with the multiset
      of runes seen. */
  lemma CountTally(st: Scan, c: char, seen: multiset<char>)
    requires st.italic + 2 * st.bold == seen['*'] && st.backQuote == seen['`']
    ensures Count(st, c).italic + 2 * Count(st, c).bold == (seen + multiset{c})['*']
    ensures Count(st, c).backQuote == (seen + multiset{c})['`']
  {
  }

  /** So the italic counter is even exactly when an even number of '*'
      has been seen. */
  lemma ItalicParity(line: string, k: nat)
    requires k <= |line|
    ensures Even(StateAt(line, k).italic) <==> Even(multiset(line[..k])['*'])
  {
    CountersCountMarkers(line, k);
  }

  /** An ideograph before '**' gets a space iff the bold counter is even and
      the rune after '**' exists and is Latin; before a single '*' iff an
      even number of '*' precede it and the rune after the '*' is Latin.
      Lookahead past the end writes nothing. */
  lemma ZhBeforeStar(line: string, i: nat)
    requires i + 1 < |line| && IsZh(line[i]) && line[i + 1] == '*'
    ensures Gaps(line)[i] <= 1
    ensures Gaps(line)[i] == 1 <==>
      if i + 2 < |line| && line[i + 2] == '*' then
        i + 3 < |line| && Even(StateAt(line, i).bold) && IsGeneralEn(line[i + 3])
      else
        i + 2 < |line| && Even(multiset(line[..i])['*']) && IsGeneralEn(line[i + 2])
  {
    GapAtMostOne(line, i);
    MarkupIsNeutral('*');
    ItalicParity(line, i);
  }

  /** An ideograph before '`' gets a space iff an even number of '`'
      precede it and the rune after the '`' exists and is Latin. */
  lemma ZhBeforeBackQuote(line: string, i: nat)
    requires i + 1 < |line| && IsZh(line[i]) && line[i + 1] == '`'
    ensures Gaps(line)[i] <= 1
    ensures Gaps(line)[i] == 1 <==>
      i + 2 < |line| && Even(multiset(line[..i])['`']) && IsGeneralEn(line[i + 2])
  {
    GapAtMostOne(line, i);
    MarkupIsNeutral('`');
    CountersCountMarkers(line, i);
  }

  /** A closing '*' before an ideograph, as the end of bold (the previous
      rune register holds '*'), gets a space iff the bold counter is even
      and the rune two back lies at an index > 0 and is neither '*' nor an
      ideograph, or, after '***', the rune three back lies at an index > 0
      and is no ideograph. */
  lemma BoldStarBeforeZh(line: string, i: nat, st: Scan)
    requires i + 1 < |line| && line[i] == '*' && IsZh(line[i + 1])
    requires st == StateAt(line, i) && st.pre == '*'
    ensures Gaps(line)[i] <= 1
    ensures Gaps(line)[i] == 1 <==>
      Even(st.bold + 1) &&
      ((i - 2 > 0 && line[i - 2] != '*' && !IsZh(line[i - 2])) ||
       (i - 3 > 0 && line[i - 2] == '*' && !IsZh(line[i - 3])))
  {
    BoldCloseStep(line, i, st);
  }

  /** The step on a '*' that closes bold before an ideograph. */
  lemma BoldCloseStep(line: string, i: nat, st: Scan)
    requires i + 1 < |line| && line[i] == '*' && IsZh(line[i + 1])
    requires st == StateAt(line, i) && st.pre == '*'
    ensures Even(st.bold + 1) ==> i >= 2
    ensures Gaps(line)[i] == BoldStarZhGap(line, i, st.bold + 1)
  {
    assert Reachable(st, i);
    assert Even(st.bold + 1) ==> st.bold != 0;
    StarBeforeZhStep(line, i, st);
    assert Gaps(line)[i] == StepAt(line, i, st).gap;
  }

  /** A closing '*' before an ideograph, as the end of italic, gets a space
      iff the number of '*' up to it is even and the rune before it lies at
      an index > 0 and is no ideograph. */
  lemma ItalicStarBeforeZh(line: string, i: nat)
    requires i + 1 < |line| && line[i] == '*' && IsZh(line[i + 1])
    requires StateAt(line, i).pre != '*'
    ensures Gaps(line)[i] <= 1
    ensures Gaps(line)[i] == 1 <==>
      Even(multiset(line[..i + 1])['*']) && i - 1 > 0 && !IsZh(line[i - 1])
  {
    ItalicCloseStep(line, i, StateAt(line, i));
    ItalicParity(line, i + 1);
  }

  /** The step on a '*' that closes italic before an ideograph. */
  lemma ItalicCloseStep(line: string, i: nat, st: Scan)
    requires i + 1 < |line| && line[i] == '*' && IsZh(line[i + 1])
    requires st == StateAt(line, i) && st.pre != '*'
    ensures Gaps(line)[i] == SingleStarZhGap(line, i, st.italic + 1)
    ensures StateAt(line, i + 1).italic == st.italic + 1
  {
    StarBeforeZhStep(line, i, st);
    assert StateAt(line, i + 1) == StepAt(line, i, st).next;
  }

  /** The step on a '*' that an ideograph follows, from any registers: the
      '*' is counted, the register moves to the ideograph, and the spaces
      are those of doBoldStarZh after '**' and of doSingleStarZh otherwise. */
  lemma StarBeforeZhStep(line: string, i: nat, st: Scan)
    requires i + 1 < |line| && line[i] == '*' && IsZh(line[i + 1]) && Reachable(st, i)
    ensures StepAt(line, i, st) == Step(Count(st, '*').(pre := line[i + 1]),
      if st.pre == '*' then BoldStarZhGap(line, i, st.bold + 1) else SingleStarZhGap(line, i, st.italic + 1))
  {
    MarkupIsNeutral('*');
  }

  /** A closing '`' before an ideograph gets a space iff the number of '`'
      up to it is even and the rune before it lies at an index > 0 and is
      no ideograph. */
  lemma BackQuoteBeforeZh(line: string, i: nat)
    requires i + 1 < |line| && line[i] == '`' && IsZh(line[i + 1])
    ensures Gaps(line)[i] <= 1
    ensures Gaps(line)[i] == 1 <==>
      Even(multiset(line[..i + 1])['`']) && i - 1 > 0 && !IsZh(line[i - 1])
  {
    GapAtMostOne(line, i);
    MarkupIsNeutral('`');
    CountersCountMarkers(line, i + 1);
  }

  /** The lookback line[idx - 2] that doBoldStarZh performs without a range
      check is reached only with an even bold counter, and then idx >= 2. */
  lemma UnguardedLookbackInRange(line: string, i: nat)
    requires i + 1 < |line| && line[i] == '*' && IsZh(line[i + 1])
    requires StateAt(line, i).pre == '*' && Even(StateAt(line, i).bold + 1)
    ensures i >= 2
  {
    var st := StateAt(line, i);
    assert Reachable(st, i);
    assert st.bold != 0;
  }

  /** The previous-rune register is sticky: it changes only after an
      ideograph, or after '*' or '`' that an ideograph follows. */
  lemma PreRuneSticky(line: string, k: nat)
    requires k < |line|
    ensures StateAt(line, k + 1).pre != StateAt(line, k).pre ==>
      k + 1 < |line| && (IsZh(line[k]) || ((line[k] == '*' || line[k] == '`') && IsZh(line[k + 1])))
  {
  }

  /** doFormat changes nothing but spaces: deleting every space from its
      output and from its input gives the same text. */
  lemma FormatKeepsText(line: string)
    ensures Squeeze(Format(line)) == Squeeze(line)
  {
    SqueezeWeave(line, Gaps(line));
  }
}
