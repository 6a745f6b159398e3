/** The span spacing engine of handler.go: doFormat and its helpers
    doZhStar, doZhBackQuote, doBoldStarZh, doSingleStarZh and doBackQuoteZh.

    The engine writes every rune of the span and then decides how many
    spaces follow it.  `StepAt` is that decision together with the register
    update; `StateAt` gives the registers when the scan reaches an index, and
    `Format` is the whole output.  `DoFormat` is the loop itself. */
module Spacing {
  import opened Classify
  import opened Interleave

  /** The registers of the scan: the "previous rune" and the three marker
      counters. */
  datatype Scan = Scan(pre: char, italic: int, bold: int, backQuote: int)

  /** Go's zero values: preRune is the NUL rune, every counter 0. */
  const Start := Scan('\0', 0, 0, 0)

  /** counter % 2 == 0.  Go's % truncates and Dafny's is Euclidean, but the
      two agree on whether the remainder is zero, also for negative
      counters (the italic counter can go below zero). */
  predicate Even(n: int) {
    n % 2 == 0
  }

  /** Marker counting for the rune just written (handler.go:211-221). */
  function Count(st: Scan, c: char): Scan {
    if c == '*' then
      if st.pre == '*' then st.(bold := st.bold + 1, italic := st.italic - 1)
      else st.(italic := st.italic + 1)
    else if c == '`' then st.(backQuote := st.backQuote + 1)
    else st
  }

  /** The base rule between a rune and the next one (handler.go:228-237). */
  function BaseGap(c: char, n: char): nat {
    if IsZh(c) && IsGeneralEn(n) then 1
    else if IsGeneralEn(c) && IsZh(n) then 1
    else if (IsZh(c) && IsEnLeftBracket(n)) || (IsEnRightBracket(c) && IsZh(n)) then 1
    else 0
  }

  /** doZhStar: an ideograph at idx followed by '*'. */
  function ZhStarGap(line: string, idx: nat, bold: int, italic: int): nat
    requires idx + 1 < |line|
  {
    if idx < |line| - 2 then
      if line[idx + 2] == '*' then
        if idx < |line| - 3 then
          (if Even(bold) && IsGeneralEn(line[idx + 3]) then 1 else 0)
        else 0
      else if Even(italic) && IsGeneralEn(line[idx + 2]) then 1
      else 0
    else 0
  }

  /** doZhBackQuote: an ideograph at idx followed by '`'. */
  function ZhBackQuoteGap(line: string, idx: nat, backQuote: int): nat
    requires idx + 1 < |line|
  {
    if idx < |line| - 2 then
      if Even(backQuote) && IsGeneralEn(line[idx + 2]) then 1 else 0
    else 0
  }

  /** doBoldStarZh: the '*' at idx closes a bold span and an ideograph
      follows.  Its second test reads line[idx - 2] without a range check;
      the precondition is what makes that read safe, and every call site
      discharges it (see UnguardedLookbackInRange). */
  function BoldStarZhGap(line: string, idx: nat, bold: int): nat
    requires idx < |line|
    requires Even(bold) ==> idx >= 2
  {
    if Even(bold) then
      (if idx - 2 > 0 && line[idx - 2] != '*' && !IsZh(line[idx - 2]) then 1 else 0)
      + (if line[idx - 2] == '*' && idx - 3 > 0 && !IsZh(line[idx - 3]) then 1 else 0)
    else 0
  }

  /** doSingleStarZh: the '*' at idx closes an italic span and an ideograph
      follows. */
  function SingleStarZhGap(line: string, idx: nat, italic: int): nat
    requires idx < |line|
  {
    if Even(italic) then
      if idx - 1 > 0 && !IsZh(line[idx - 1]) then 1 else 0
    else 0
  }

  /** doBackQuoteZh: the '`' at idx closes inline code and an ideograph
      follows. */
  function BackQuoteZhGap(line: string, idx: nat, backQuote: int): nat
    requires idx < |line|
  {
    if Even(backQuote) then
      if idx - 1 > 0 && !IsZh(line[idx - 1]) then 1 else 0
    else 0
  }

  /** What always holds of the registers when the scan reaches idx: the
      bold counter only grows at an index >= 1, and preRune starts as NUL. */
  predicate Reachable(st: Scan, idx: nat) {
    st.bold >= 0 && (st.pre == '*' ==> idx >= 1) && (st.bold == 0 || st.bold < idx)
  }

  datatype Step = Step(next: Scan, gap: nat)

  /** One iteration of doFormat's loop on the rune at idx, from the
      registers st: the spaces written after the rune and the registers for
      the next iteration.  preRune is reassigned only after an ideograph,
      after '*' before an ideograph and after '`' before an ideograph
      (handler.go:252, 267, 273). */
  function StepAt(line: string, idx: nat, st: Scan): (r: Step)
    requires idx < |line| && Reachable(st, idx)
    ensures Reachable(r.next, idx + 1)
  {
    var c := line[idx];
    var s1 := Count(st, c);
    if idx < |line| - 1 then
      var n := line[idx + 1];
      var base := BaseGap(c, n);
      if IsZh(c) then
        var extra :=
          if n == '*' then ZhStarGap(line, idx, s1.bold, s1.italic)
          else if n == '`' then ZhBackQuoteGap(line, idx, s1.backQuote)
          else 0;
        Step(s1.(pre := n), base + extra)
      else if c == '*' && IsZh(n) then
        var extra :=
          if s1.pre == '*' then BoldStarZhGap(line, idx, s1.bold)
          else SingleStarZhGap(line, idx, s1.italic);
        Step(s1.(pre := n), base + extra)
      else if c == '`' && IsZh(n) then
        Step(s1.(pre := c), base + BackQuoteZhGap(line, idx, s1.backQuote))
      else Step(s1, base)
    else Step(s1, 0)
  }

  /** The registers when the scan reaches index k. */
  function StateAt(line: string, k: nat): (st: Scan)
    requires k <= |line|
    ensures Reachable(st, k)
  {
    if k == 0 then Start else StepAt(line, k - 1, StateAt(line, k - 1)).next
  }

  /** The number of spaces written after each rune. */
  function Gaps(line: string): (g: seq<nat>)
    ensures |g| == |line|
  {
    seq(|line|, i requires 0 <= i < |line| => StepAt(line, i, StateAt(line, i)).gap)
  }

  /** The output of doFormat. */
  function Format(line: string): string {
    Weave(line, Gaps(line))
  }

  /** Writing rune idx and the spaces after it extends the output of the
      first idx runes to that of the first idx + 1 runes. */
  lemma FormatPrefixGrows(line: string, idx: nat)
    requires idx < |line|
    ensures Weave(line[..idx + 1], Gaps(line)[..idx + 1])
         == Weave(line[..idx], Gaps(line)[..idx]) + [line[idx]] + Spaces(Gaps(line)[idx])
  {
    assert line[..idx + 1] == line[..idx] + [line[idx]];
    assert Gaps(line)[..idx + 1] == Gaps(line)[..idx] + [Gaps(line)[idx]];
    WeaveSnoc(line[..idx], Gaps(line)[..idx], line[idx], Gaps(line)[idx]);
  }

  /** One pass of doFormat's loop body (handler.go:208-276): write the rune
      at idx, count it, and write the spaces that follow it. */
  method ScanRune(line: string, idx: nat, preRune: char, italicCnt: int, boldCnt: int, backQuoteCnt: int)
    returns (written: string, preRune': char, italicCnt': int, boldCnt': int, backQuoteCnt': int)
    requires idx < |line| && Reachable(Scan(preRune, italicCnt, boldCnt, backQuoteCnt), idx)
    ensures StepAt(line, idx, Scan(preRune, italicCnt, boldCnt, backQuoteCnt)).next
         == Scan(preRune', italicCnt', boldCnt', backQuoteCnt')
    ensures written == [line[idx]] + Spaces(StepAt(line, idx, Scan(preRune, italicCnt, boldCnt, backQuoteCnt)).gap)
  {
    var length := |line|;
    var buffer: string := [];
    preRune', italicCnt', boldCnt', backQuoteCnt' := preRune, italicCnt, boldCnt, backQuoteCnt;
    var currentRune := line[idx];
    buffer := buffer + [currentRune];
    if currentRune == '*' {
      if preRune' == '*' {
        boldCnt' := boldCnt' + 1;
        italicCnt' := italicCnt' - 1;
      } else {
        italicCnt' := italicCnt' + 1;
      }
    } else if currentRune == '`' {
      backQuoteCnt' := backQuoteCnt' + 1;
    }
    ghost var step := StepAt(line, idx, Scan(preRune, italicCnt, boldCnt, backQuoteCnt));
    ghost var counted := Scan(preRune', italicCnt', boldCnt', backQuoteCnt');
    assert counted == Count(Scan(preRune, italicCnt, boldCnt, backQuoteCnt), currentRune);
    var extra: nat := 0;
    ghost var base: nat := 0;
    if idx < length - 1 {
      var nextRune := line[idx + 1];
      if IsZh(currentRune) && IsGeneralEn(nextRune) {
        buffer := buffer + " ";
        base := 1;
      } else if IsGeneralEn(currentRune) && IsZh(nextRune) {
        buffer := buffer + " ";
        base := 1;
      } else if (IsZh(currentRune) && IsEnLeftBracket(nextRune)) || (IsEnRightBracket(currentRune) && IsZh(nextRune)) {
        buffer := buffer + " ";
        base := 1;
      }
      assert base == BaseGap(currentRune, nextRune) && buffer == [currentRune] + Spaces(base);
      if IsZh(currentRune) {
        if nextRune == '*' {
          extra := ZhStarGap(line, idx, boldCnt', italicCnt');
        } else if nextRune == '`' {
          extra := ZhBackQuoteGap(line, idx, backQuoteCnt');
        }
        preRune' := nextRune;
      } else if currentRune == '*' && IsZh(nextRune) {
        if preRune' == '*' {
          extra := BoldStarZhGap(line, idx, boldCnt');
        } else {
          extra := SingleStarZhGap(line, idx, italicCnt');
        }
        preRune' := nextRune;
      } else if currentRune == '`' && IsZh(nextRune) {
        extra := BackQuoteZhGap(line, idx, backQuoteCnt');
        preRune' := currentRune;
      }
      buffer := buffer + Spaces(extra);
      assert step == Step(Scan(preRune', italicCnt', boldCnt', backQuoteCnt'), base + extra);
      RuneThenSpaces(currentRune, base, extra);
      assert buffer == [currentRune] + Spaces(step.gap);
    } else {
      assert step == Step(counted, 0);
      assert buffer == [currentRune] + Spaces(step.gap);
    }
    written := buffer;
  }

  /** doFormat (handler.go:193-280). */
  method DoFormat(line: string) returns (r: string)
    ensures r == Format(line)
  {
    var preRune := '\0';
    var length := |line|;
    var buffer: string := [];
    var italicCnt, boldCnt, backQuoteCnt := 0, 0, 0;
    var idx := 0;
    while idx < length
      invariant 0 <= idx <= length
      invariant Scan(preRune, italicCnt, boldCnt, backQuoteCnt) == StateAt(line, idx)
      invariant buffer == Weave(line[..idx], Gaps(line)[..idx])
    {
      var written;
      written, preRune, italicCnt, boldCnt, backQuoteCnt := ScanRune(line, idx, preRune, italicCnt, boldCnt, backQuoteCnt);
      FormatPrefixGrows(line, idx);
      buffer := buffer + written;
      idx := idx + 1;
    }
    assert line[..idx] == line;
    assert Gaps(line)[..idx] == Gaps(line);
    r := buffer;
  }
}
