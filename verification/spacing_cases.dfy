/** Worked inputs for the two spacing engines, showing where they differ
    on the same span. */
module SpacingCases {
  import Classify
  import SpaceClassify
  import opened Interleave
  import opened Spacing
  import opened SpaceBlock

  /** In doFormat an ideograph sets the previous-rune register to the rune
      after it, so the '*' that follows counts as the second half of '**'
      and the register stays '*' up to the closing '*': the closing '*' is
      then taken for the end of bold and, with only one rune between the
      markers, gets no space before the ideograph. */
  lemma ItalicOneRuneBetween(line: string)
    requires |line| == 5 && line[1] == '*' && line[3] == '*'
    requires Classify.IsZh(line[0]) && Classify.IsGeneralEn(line[2]) && Classify.IsZh(line[4])
    ensures Format(line) == [line[0], ' ', '*', line[2], '*', line[4]]
  {
    Classify.ZhNotGeneralEn(line[2]);
    Classify.MarkupIsNeutral('*');
    var s1 := Scan('*', 0, 0, 0);
    var s2 := Scan('*', -1, 1, 0);
    assert StepAt(line, 0, Start) == Step(s1, 1);
    assert StateAt(line, 1) == s1;
    assert StepAt(line, 1, s1) == Step(s2, 0);
    assert StateAt(line, 2) == s2;
    assert StepAt(line, 2, s2) == Step(s2, 0);
    assert StateAt(line, 3) == s2;
    assert StepAt(line, 3, s2).gap == 0;
    assert StepAt(line, 4, StateAt(line, 4)).gap == 0;
    var g := Gaps(line);
    assert g == [1, 0, 0, 0, 0];
    WeaveFive(line, g);
    var f := Format(line);
    assert f == Weave(line, g);
    assert Spaces(1) == [' '] && Spaces(0) == [];
    FlatSix(line[0], ' ', '*', line[2], '*', line[4]);
  }

  /** The same on a concrete span. */
  lemma ItalicOneRuneBetweenIdeographs()
    ensures Format("中*a*中") == "中 *a*中"
  {
    ItalicOneRuneBetween("中*a*中");
  }

  /** handleBlock moves the register on every rune, so the same span gets
      a space on both sides of the italic text. */
  lemma BlockItalicOneRuneBetween(line: string)
    requires |line| == 5 && line[1] == '*' && line[3] == '*'
    requires SpaceClassify.IsZh(line[0]) && SpaceClassify.IsGeneralEn(line[2]) && SpaceClassify.IsZh(line[4])
    ensures Block(line) == [line[0], ' ', '*', line[2], '*', ' ', line[4]]
  {
    SpaceClassify.ZhNotGeneralEn(line[2]);
    SpaceClassify.MarkupIsNeutral('*');
    var s1 := Scan(line[0], 0, 0, 0);
    var s2 := Scan('*', 1, 0, 0);
    var s3 := Scan(line[2], 1, 0, 0);
    var s4 := Scan('*', 2, 0, 0);
    assert BlockStep(line, 0, Start) == Step(s1, 1);
    assert BlockState(line, 1) == s1;
    assert BlockStep(line, 1, s1) == Step(s2, 0);
    assert BlockState(line, 2) == s2;
    assert BlockStep(line, 2, s2) == Step(s3, 0);
    assert BlockState(line, 3) == s3;
    assert BlockStep(line, 3, s3) == Step(s4, 1);
    assert BlockState(line, 4) == s4;
    assert BlockStep(line, 4, s4).gap == 0;
    var g := BlockGaps(line);
    assert g == [1, 0, 0, 1, 0];
    WeaveFive(line, g);
    var b := Block(line);
    assert b == Weave(line, g);
    assert Spaces(1) == [' '] && Spaces(0) == [];
    FlatSeven(line[0], ' ', '*', line[2], '*', ' ', line[4]);
  }

  /** The same on a concrete span. */
  lemma BlockItalicOneRuneBetweenIdeographs()
    ensures Block("中*a*中") == "中 *a* 中"
  {
    BlockItalicOneRuneBetween("中*a*中");
  }

  /** Evaluation helper for the case lemmas above: concatenating
      singletons in the nesting `WeaveFive` gives. */
  lemma FlatSix(a: char, b: char, c: char, d: char, e: char, f: char)
    ensures [a] + [b] + ([c] + [] + ([d] + [] + ([e] + [] + ([f] + []))))
      == [a, b, c, d, e, f]
  {
  }

  /** Evaluation helper: the same with seven runes. */
  lemma FlatSeven(a: char, b: char, c: char, d: char, e: char, f: char, h: char)
    ensures [a] + [b] + ([c] + [] + ([d] + [] + ([e] + [f] + ([h] + []))))
      == [a, b, c, d, e, f, h]
  {
  }

  /** Evaluation helper for the case lemmas above: weaving five runes,
      unfolded. */
  lemma WeaveFive(s: string, g: seq<nat>)
    requires |s| == |g| == 5
    ensures Weave(s, g) == [s[0]] + Spaces(g[0]) + ([s[1]] + Spaces(g[1]) + ([s[2]] + Spaces(g[2])
      + ([s[3]] + Spaces(g[3]) + ([s[4]] + Spaces(g[4])))))
  {
    WeaveAt(s, g, 0);
    WeaveAt(s, g, 1);
    WeaveAt(s, g, 2);
    WeaveAt(s, g, 3);
    WeaveAt(s, g, 4);
    assert s[5..] == [] && g[5..] == [];
    assert s[0..] == s && g[0..] == g;
  }

  /** Evaluation helper: weaving from rune k on is rune k, its spaces,
      then the rest. */
  lemma WeaveAt(s: string, g: seq<nat>, k: nat)
    requires |s| == |g| && k < |s|
    ensures Weave(s[k..], g[k..]) == [s[k]] + Spaces(g[k]) + Weave(s[k + 1..], g[k + 1..])
  {
    assert s[k..][1..] == s[k + 1..];
    assert g[k..][1..] == g[k + 1..];
  }
}
