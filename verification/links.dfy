/** Link-aware splitting of a paragraph line (handler.go:131-191, 351-358).

    The two patterns of handler.go:30-31,
      linkRegex       .*?([!]?\[.*?\]\(.*?\)).*?
      linkDetailRegex ([!]?)\[(.*?)\]\((.*?)\)
    are replaced by the scanners below.  With Go's leftmost-first matching
    both find the leftmost position q where a link starts: an optional '!',
    then '[', then the link text up to the first "](" (the lazy `.*?`), then
    the target up to the first ')' after it.  `.` does not match a newline,
    so neither the text nor the target may cross one.  Positions are rune
    indices. */
module Links {
  import opened Wrappers
  import opened Interleave
  import opened Spacing
  import SpacingFacts

  /** A link or image found in a line: '!' or '[' at start, the link text
      at textStart..textEnd, "](" at textEnd, the target at
      textEnd + 2..targetEnd and ')' at targetEnd. */
  datatype Link = Link(start: nat, textStart: nat, textEnd: nat, targetEnd: nat) {
    function End(): nat {
      targetEnd + 1
    }
  }

  /** The shape every found link has. */
  predicate Shaped(s: string, l: Link) {
    && l.start < l.textStart <= l.textEnd
    && l.textEnd + 2 <= l.targetEnd < |s|
    && s[l.textStart - 1] == '['
    && (l.textStart == l.start + 1 || (l.textStart == l.start + 2 && s[l.start] == '!'))
    && s[l.textEnd] == ']' && s[l.textEnd + 1] == '('
    && s[l.targetEnd] == ')'
    && Lacks(s, l.textStart, l.targetEnd, '\n')
    && Lacks(s, l.textEnd + 2, l.targetEnd, ')')
  }

  /** No c in s[a..b]. */
  predicate Lacks(s: string, a: nat, b: nat, c: char) {
    forall i :: a <= i < b && i < |s| ==> s[i] != c
  }

  /** "](" at j */
  predicate CloserAt(s: string, j: nat) {
    j + 1 < |s| && s[j] == ']' && s[j + 1] == '('
  }

  /** The lazy link text: the first "](" at or after t, unless a newline
      comes first. */
  function FindCloser(s: string, t: nat): (r: Option<nat>)
    ensures r.Some? ==> t <= r.value && CloserAt(s, r.value) && Lacks(s, t, r.value, '\n')
    ensures r.Some? ==> forall j :: t <= j < r.value ==> !CloserAt(s, j)
    ensures r.None? ==> forall j :: t <= j < |s| && CloserAt(s, j) ==> !Lacks(s, t, j, '\n')
    decreases |s| - t
  {
    if t + 1 >= |s| || s[t] == '\n' then None
    else if s[t] == ']' && s[t + 1] == '(' then Some(t)
    else
      FindCloser(s, t + 1)
  }

  /** The lazy link target: the first ')' at or after t, unless a newline
      comes first. */
  function FindParen(s: string, t: nat): (r: Option<nat>)
    ensures r.Some? ==> t <= r.value < |s| && s[r.value] == ')' && Lacks(s, t, r.value, '\n') && Lacks(s, t, r.value, ')')
    ensures r.None? ==> forall k :: t <= k < |s| && s[k] == ')' ==> !Lacks(s, t, k, '\n')
    decreases |s| - t
  {
    if t >= |s| || s[t] == '\n' then None
    else if s[t] == ')' then Some(t)
    else
      FindParen(s, t + 1)
  }

  /** The rest of a link after its '[' (the text starts at t). */
  function BracketLink(s: string, q: nat, t: nat): (r: Option<Link>)
    requires q < t <= |s| && s[t - 1] == '['
    requires t == q + 1 || (t == q + 2 && s[q] == '!')
    ensures r.Some? ==> Shaped(s, r.value) && r.value.start == q && r.value.textStart == t
  {
    match FindCloser(s, t)
    case None => None
    case Some(j) =>
      match FindParen(s, j + 2)
      case None => None
      case Some(k) =>
        SearchesShapeLink(s, q, t, j, k);
        Some(Link(q, t, j, k))
  }

  /** Both searches succeeding after the '[' at t - 1 give a link of the
      right shape. */
  lemma SearchesShapeLink(s: string, q: nat, t: nat, j: nat, k: nat)
    requires q < t <= |s| && s[t - 1] == '['
    requires t == q + 1 || (t == q + 2 && s[q] == '!')
    requires FindCloser(s, t) == Some(j) && FindParen(s, j + 2) == Some(k)
    ensures Shaped(s, Link(q, t, j, k))
  {
  }

  /** The link pattern tried at q: first with a leading '!', then without. */
  function LinkAt(s: string, q: nat): (r: Option<Link>)
    ensures r.Some? ==> Shaped(s, r.value) && r.value.start == q
    ensures r.Some? ==> q < |s| && (s[q] == '!' || s[q] == '[')
  {
    if q + 1 < |s| && s[q] == '!' && s[q + 1] == '[' then BracketLink(s, q, q + 2)
    else if q < |s| && s[q] == '[' then BracketLink(s, q, q + 1)
    else None
  }

  /** No link starts in [a, b). */
  predicate NoLinkIn(s: string, a: nat, b: nat) {
    forall q :: a <= q < b ==> LinkAt(s, q).None?
  }

  /** The leftmost link at or after from. */
  function FindLink(s: string, from: nat): (r: Option<Link>)
    ensures r.Some? ==> from <= r.value.start && LinkAt(s, r.value.start) == r && NoLinkIn(s, from, r.value.start)
    ensures r.None? ==> NoLinkIn(s, from, |s|)
    decreases |s| - from
  {
    if from >= |s| then None
    else if LinkAt(s, from).Some? then LinkAt(s, from)
    else
      var r := FindLink(s, from + 1);
      NoLinkGrows(s, from, if r.Some? then r.value.start else |s|);
      r
  }

  /** No link in (a, b) and none at a: none in [a, b). */
  lemma NoLinkGrows(s: string, a: nat, b: nat)
    requires LinkAt(s, a).None? && NoLinkIn(s, a + 1, b)
    ensures NoLinkIn(s, a, b)
  {
  }

  /** Where the plain text before the i-th link starts. */
  function PrevEnd(links: seq<Link>, i: nat, from: nat): nat
    requires i <= |links|
  {
    if i == 0 then from else links[i - 1].End()
  }

  /** links are links of s, in order, not overlapping, all at or after
      from. */
  predicate Sorted(s: string, links: seq<Link>, from: nat) {
    && (forall i :: 0 <= i < |links| ==> LinkAt(s, links[i].start) == Some(links[i]))
    && (forall i :: 0 <= i < |links| ==> PrevEnd(links, i, from) <= links[i].start)
  }

  /** linkRegex.FindAllStringSubmatchIndex(line, -1), group 1 of each
      match: successive leftmost links, each search resuming where the
      previous match ended.  Nothing between the matches, or after the last
      one, starts a link. */
  function AllLinks(s: string, from: nat): (r: seq<Link>)
    ensures Sorted(s, r, from)
    ensures forall i :: 0 <= i < |r| ==> NoLinkIn(s, PrevEnd(r, i, from), r[i].start)
    ensures NoLinkIn(s, PrevEnd(r, |r|, from), |s|)
    decreases |s| - from
  {
    match FindLink(s, from)
    case None => []
    case Some(l) =>
      var rest := AllLinks(s, l.End());
      ConsLinks(s, from, l, rest);
      [l] + rest
  }

  /** Putting the leftmost link in front of the links after it. */
  lemma ConsLinks(s: string, from: nat, l: Link, rest: seq<Link>)
    requires FindLink(s, from) == Some(l)
    requires Sorted(s, rest, l.End())
    requires forall i :: 0 <= i < |rest| ==> NoLinkIn(s, PrevEnd(rest, i, l.End()), rest[i].start)
    requires NoLinkIn(s, PrevEnd(rest, |rest|, l.End()), |s|)
    ensures Sorted(s, [l] + rest, from)
    ensures forall i :: 0 <= i < |[l] + rest| ==> NoLinkIn(s, PrevEnd([l] + rest, i, from), ([l] + rest)[i].start)
    ensures NoLinkIn(s, PrevEnd([l] + rest, |[l] + rest|, from), |s|)
  {
    var r := [l] + rest;
    forall i | 0 <= i < |r|
      ensures LinkAt(s, r[i].start) == Some(r[i])
      ensures PrevEnd(r, i, from) <= r[i].start
      ensures NoLinkIn(s, PrevEnd(r, i, from), r[i].start)
    {
      if i > 0 {
        ConsLinkAt(s, from, l, rest, i);
      }
    }
    assert PrevEnd(r, |r|, from) == PrevEnd(rest, |rest|, l.End()) by {
      if rest != [] {
        assert r[|r| - 1] == rest[|rest| - 1];
      }
    }
  }

  /** Link i of the longer list is link i - 1 of rest. */
  lemma ConsLinkAt(s: string, from: nat, l: Link, rest: seq<Link>, i: nat)
    requires FindLink(s, from) == Some(l)
    requires Sorted(s, rest, l.End())
    requires forall i :: 0 <= i < |rest| ==> NoLinkIn(s, PrevEnd(rest, i, l.End()), rest[i].start)
    requires 0 < i <= |rest|
    ensures LinkAt(s, ([l] + rest)[i].start) == Some(([l] + rest)[i])
    ensures PrevEnd([l] + rest, i, from) == PrevEnd(rest, i - 1, l.End()) <= ([l] + rest)[i].start
    ensures NoLinkIn(s, PrevEnd([l] + rest, i, from), ([l] + rest)[i].start)
  {
    var r := [l] + rest;
    assert r[i] == rest[i - 1];
    if i > 1 {
      assert r[i - 1] == rest[i - 2];
    }
  }

  /** fmt.Sprintf("%s[%s](%s)", ...): a link or image written back from
      its pieces. */
  function Rebuild(image: bool, text: string, target: string): string {
    (if image then "!" else "") + "[" + text + "](" + target + ")"
  }

  /** Whether the link is an image, i.e. starts with '!'. */
  predicate IsImage(l: Link) {
    l.textStart == l.start + 2
  }

  /** handleLinks: reformat the link text of the first link in text and
      rebuild "[text](target)" or "![text](target)" around it; anything
      outside that first link is not copied.  Without a link the text is
      returned as it is. */
  function HandleLinks(text: string): string {
    match FindLink(text, 0)
    case None => text
    case Some(l) =>
      Rebuild(IsImage(l), Format(text[l.textStart..l.textEnd]), text[l.textEnd + 2..l.targetEnd])
  }

  /** The output of the first i iterations of doFormatWithLink's loop over
      the links: plain text before each link, the link itself, and after
      the last link the rest of the line. */
  function LinkedOutput(line: string, links: seq<Link>, i: nat): string
    requires Sorted(line, links, 0) && i <= |links|
  {
    if i == 0 then []
    else
      var l := links[i - 1];
      LinkedOutput(line, links, i - 1)
      + Format(line[PrevEnd(links, i - 1, 0)..l.start])
      + HandleLinks(line[l.start..l.End()])
      + (if i == |links| then Format(line[l.End()..]) else [])
  }

  /** What doFormatWithLink returns. */
  function WithLinks(line: string, links: seq<Link>): string
    requires Sorted(line, links, 0)
  {
    LinkedOutput(line, links, |links|)
  }

  /** The i-th link lies after the text before it and inside the line. */
  lemma LinkBounds(line: string, links: seq<Link>, i: nat)
    requires Sorted(line, links, 0) && i < |links|
    ensures PrevEnd(links, i, 0) <= links[i].start < links[i].End() <= |line|
  {
    assert LinkAt(line, links[i].start) == Some(links[i]);
  }

  /** One more iteration of the loop appends the plain text before the
      next link, the link, and after the last link the rest of the line. */
  lemma LinkedOutputStep(line: string, links: seq<Link>, i: nat)
    requires Sorted(line, links, 0) && i < |links|
    ensures PrevEnd(links, i, 0) <= links[i].start < links[i].End() <= |line|
    ensures LinkedOutput(line, links, i + 1) ==
      LinkedOutput(line, links, i)
      + Format(line[PrevEnd(links, i, 0)..links[i].start])
      + HandleLinks(line[links[i].start..links[i].End()])
      + (if i == |links| - 1 then Format(line[links[i].End()..]) else [])
  {
    LinkBounds(line, links, i);
  }

  /** doFormatWithLink (handler.go:131-191).  The index lists of the regex
      are given here as Link records, which always hold the two indices of
      group 1, so the guards for an empty or odd index list
      (handler.go:134-141) cannot fire and are not modelled. */
  method DoFormatWithLink(line: string, links: seq<Link>) returns (r: string)
    requires Sorted(line, links, 0)
    ensures r == WithLinks(line, links)
  {
    var resultBuf: string := [];
    var prevEndIdx: nat := 0;
    for i := 0 to |links|
      invariant prevEndIdx == PrevEnd(links, i, 0)
      invariant resultBuf == LinkedOutput(line, links, i)
    {
      var pair := links[i];
      LinkedOutputStep(line, links, i);
      var plain := DoFormat(line[prevEndIdx..pair.start]);
      prevEndIdx := pair.End();
      var link := HandleLinks(line[pair.start..pair.End()]);
      var tail: string := [];
      if i == |links| - 1 {
        tail := DoFormat(line[pair.End()..]);
        prevEndIdx := pair.End();
      }
      var buf := plain + link + tail;
      ConcatAssoc(resultBuf, plain, link, tail);
      resultBuf := resultBuf + buf;
    }
    r := resultBuf;
  }

  /** The search for "](" stays inside any window that holds the text and
      the "](" it finds. */
  lemma {:induction false} FindCloserWindow(s: string, t: nat, a: nat, b: nat)
    requires a <= t && b <= |s|
    requires FindCloser(s, t).Some? && FindCloser(s, t).value + 2 <= b
    ensures FindCloser(s[a..b], t - a) == Some(FindCloser(s, t).value - a)
    decreases |s| - t
  {
    var w := s[a..b];
    assert w[t - a] == s[t] && w[t - a + 1] == s[t + 1];
    if !(s[t] == ']' && s[t + 1] == '(') {
      FindCloserWindow(s, t + 1, a, b);
    }
  }

  /** The search for ')' stays inside any window that holds the target and
      the ')' it finds. */
  lemma {:induction false} FindParenWindow(s: string, t: nat, a: nat, b: nat)
    requires a <= t && b <= |s|
    requires FindParen(s, t).Some? && FindParen(s, t).value < b
    ensures FindParen(s[a..b], t - a) == Some(FindParen(s, t).value - a)
    decreases |s| - t
  {
    var w := s[a..b];
    assert w[t - a] == s[t];
    if s[t] != ')' {
      FindParenWindow(s, t + 1, a, b);
    }
  }

  /** Matching the link pattern again on the text of a found link (what
      handleLinks does with linkDetailRegex) finds the same link. */
  lemma LinkInWindow(s: string, l: Link)
    requires LinkAt(s, l.start) == Some(l)
    ensures LinkAt(s[l.start..l.End()], 0)
         == Some(Link(0, l.textStart - l.start, l.textEnd - l.start, l.targetEnd - l.start))
  {
    LinkParts(s, l);
    CloserInWindow(s, l.textStart, l.textEnd, l.start, l.End());
    ParenInWindow(s, l.textEnd + 2, l.targetEnd, l.start, l.End());
    BracketInWindow(s, l.start, l.textStart, l.End());
    LinkFromParts(s[l.start..l.End()], 0, l.textStart - l.start, l.textEnd - l.start,
      l.textEnd + 2 - l.start, l.targetEnd - l.start);
  }

  lemma CloserInWindow(s: string, t: nat, j: nat, a: nat, b: nat)
    requires a <= t && j + 2 <= b <= |s| && FindCloser(s, t) == Some(j)
    ensures FindCloser(s[a..b], t - a) == Some(j - a)
  {
    FindCloserWindow(s, t, a, b);
  }

  lemma ParenInWindow(s: string, t: nat, k: nat, a: nat, b: nat)
    requires a <= t && k < b <= |s| && FindParen(s, t) == Some(k)
    ensures FindParen(s[a..b], t - a) == Some(k - a)
  {
    FindParenWindow(s, t, a, b);
  }

  /** The "![" or "[" that opens a link, seen in the slice from q to b. */
  lemma BracketInWindow(s: string, q: nat, t: nat, b: nat)
    requires q < t < b <= |s| && s[t - 1] == '['
    requires t == if q + 1 < |s| && s[q] == '!' && s[q + 1] == '[' then q + 2 else q + 1
    ensures 1 < b - q
    ensures t - q == if s[q..b][0] == '!' && s[q..b][1] == '[' then 2 else 1
    ensures s[q..b][t - q - 1] == '['
  {
  }

  /** Where the two searches of a found link stop. */
  lemma LinkParts(s: string, l: Link)
    requires LinkAt(s, l.start) == Some(l)
    ensures l.textStart == if l.start + 1 < |s| && s[l.start] == '!' && s[l.start + 1] == '[' then l.start + 2 else l.start + 1
    ensures FindCloser(s, l.textStart) == Some(l.textEnd)
    ensures FindParen(s, l.textEnd + 2) == Some(l.targetEnd)
  {
    var q := l.start;
    var t := if q + 1 < |s| && s[q] == '!' && s[q + 1] == '[' then q + 2 else q + 1;
    LinkAtTries(s, q);
    BracketLinkParts(s, q, t);
  }

  /** Which bracket the link pattern tries at q. */
  lemma LinkAtTries(s: string, q: nat)
    requires LinkAt(s, q).Some?
    ensures q + 1 < |s| && s[q] == '!' && s[q + 1] == '[' ==> LinkAt(s, q) == BracketLink(s, q, q + 2)
    ensures !(q + 1 < |s| && s[q] == '!' && s[q + 1] == '[') ==> q < |s| && s[q] == '[' && LinkAt(s, q) == BracketLink(s, q, q + 1)
  {
  }

  lemma BracketLinkParts(s: string, q: nat, t: nat)
    requires q < t <= |s| && s[t - 1] == '['
    requires t == q + 1 || (t == q + 2 && s[q] == '!')
    requires BracketLink(s, q, t).Some?
    ensures BracketLink(s, q, t).value.textStart == t
    ensures FindCloser(s, t) == Some(BracketLink(s, q, t).value.textEnd)
    ensures FindParen(s, BracketLink(s, q, t).value.textEnd + 2) == Some(BracketLink(s, q, t).value.targetEnd)
  {
  }

  /** A link is found at q when both searches succeed after its '['. */
  lemma LinkFromParts(s: string, q: nat, t: nat, j: nat, p: nat, k: nat)
    requires q + 1 < |s| && t == if s[q] == '!' && s[q + 1] == '[' then q + 2 else q + 1
    requires s[t - 1] == '[' && p == j + 2
    requires FindCloser(s, t) == Some(j) && FindParen(s, p) == Some(k)
    ensures LinkAt(s, q) == Some(Link(q, t, j, k))
  {
    assert LinkAt(s, q) == BracketLink(s, q, t);
  }

  /** handleLinks on a found link: the '!' of an image is kept, the link
      text is spaced by doFormat and the target is copied as it is. */
  lemma HandleLinksOfLink(s: string, l: Link)
    requires LinkAt(s, l.start) == Some(l)
    ensures HandleLinks(s[l.start..l.End()]) ==
      Rebuild(IsImage(l), Format(s[l.textStart..l.textEnd]), s[l.textEnd + 2..l.targetEnd])
  {
    LinkInWindow(s, l);
    HandleLinksInWindow(s, l);
  }

  /** handleLinks on the slice of a link that is found again at the start
      of its slice. */
  lemma HandleLinksInWindow(s: string, l: Link)
    requires l.start < l.textStart <= l.textEnd && l.textEnd + 2 <= l.targetEnd < |s|
    requires LinkAt(s[l.start..l.End()], 0)
         == Some(Link(0, l.textStart - l.start, l.textEnd - l.start, l.targetEnd - l.start))
    ensures HandleLinks(s[l.start..l.End()]) ==
      Rebuild(IsImage(l), Format(s[l.textStart..l.textEnd]), s[l.textEnd + 2..l.targetEnd])
  {
    var q := l.start;
    var w := s[q..l.End()];
    var lw := Link(0, l.textStart - q, l.textEnd - q, l.targetEnd - q);
    HandleLinksAt(w, lw);
    SliceOfSlice(s, q, l.End(), lw.textStart, lw.textEnd, l.textStart, l.textEnd);
    SliceOfSlice(s, q, l.End(), lw.textEnd + 2, lw.targetEnd, l.textEnd + 2, l.targetEnd);
    RebuildSame(IsImage(lw), w[lw.textStart..lw.textEnd], w[lw.textEnd + 2..lw.targetEnd],
      IsImage(l), s[l.textStart..l.textEnd], s[l.textEnd + 2..l.targetEnd]);
  }

  lemma RebuildSame(image: bool, text: string, target: string, image': bool, text': string, target': string)
    requires image == image' && text == text' && target == target'
    ensures Rebuild(image, Format(text), target) == Rebuild(image', Format(text'), target')
  {
  }

  /** handleLinks on a text whose link pattern matches at its start. */
  lemma HandleLinksAt(text: string, l: Link)
    requires LinkAt(text, 0) == Some(l)
    ensures HandleLinks(text) == Rebuild(IsImage(l), Format(text[l.textStart..l.textEnd]), text[l.textEnd + 2..l.targetEnd])
  {
    assert FindLink(text, 0) == Some(l);
  }

  /** A found link is its own text rebuilt from its pieces. */
  lemma LinkPieces(s: string, l: Link)
    requires Shaped(s, l)
    ensures s[l.start..l.End()] == Rebuild(IsImage(l), s[l.textStart..l.textEnd], s[l.textEnd + 2..l.targetEnd])
  {
    var bang: string := if IsImage(l) then "!" else "";
    assert s[l.start..l.textStart] == bang + "[";
    assert s[l.textEnd..l.textEnd + 2] == "](";
    assert s[l.targetEnd..l.End()] == ")";
    FivePieces(s, l.start, l.textStart, l.textEnd, l.textEnd + 2, l.targetEnd, l.End());
  }

  lemma FivePieces(s: string, a: nat, b: nat, c: nat, d: nat, e: nat, f: nat)
    requires a <= b <= c <= d <= e <= f <= |s|
    ensures s[a..f] == s[a..b] + s[b..c] + s[c..d] + s[d..e] + s[e..f]
  {
    assert s[a..c] == s[a..b] + s[b..c];
    assert s[a..d] == s[a..c] + s[c..d];
    assert s[a..e] == s[a..d] + s[d..e];
    assert s[a..f] == s[a..e] + s[e..f];
  }

  /** Rebuilding from a link text that squeezes to the same text. */
  lemma SqueezeRebuild(image: bool, text: string, text': string, target: string)
    requires Squeeze(text) == Squeeze(text')
    ensures Squeeze(Rebuild(image, text, target)) == Squeeze(Rebuild(image, text', target))
  {
    var a: string := (if image then "!" else "") + "[";
    var c: string := "](" + target + ")";
    assert Rebuild(image, text, target) == a + text + c;
    assert Rebuild(image, text', target) == a + text' + c;
    SqueezeAppend(a + text, c);
    SqueezeAppend(a, text);
    SqueezeAppend(a + text', c);
    SqueezeAppend(a, text');
  }

  /** handleLinks changes nothing but spaces. */
  lemma HandleLinksKeepsText(s: string, l: Link)
    requires LinkAt(s, l.start) == Some(l)
    ensures Squeeze(HandleLinks(s[l.start..l.End()])) == Squeeze(s[l.start..l.End()])
  {
    HandleLinksOfLink(s, l);
    LinkPieces(s, l);
    var text := s[l.textStart..l.textEnd];
    SpacingFacts.FormatKeepsText(text);
    SqueezeRebuild(IsImage(l), Format(text), text, s[l.textEnd + 2..l.targetEnd]);
  }

  /** The output of the first i iterations squeezes to the line up to the
      end of the i-th link, and once the last link is written, to the whole
      line. */
  lemma {:induction false} LinkedOutputKeepsText(line: string, links: seq<Link>, i: nat)
    requires Sorted(line, links, 0) && i <= |links|
    ensures PrevEnd(links, i, 0) <= |line|
    ensures i < |links| ==> Squeeze(LinkedOutput(line, links, i)) == Squeeze(line[..PrevEnd(links, i, 0)])
    ensures i == |links| > 0 ==> Squeeze(LinkedOutput(line, links, i)) == Squeeze(line)
  {
    if i == 0 {
      if |links| > 0 {
        LinkBounds(line, links, 0);
      }
    } else {
      var k := i - 1;
      LinkedOutputKeepsText(line, links, k);
      StepKeepsText(line, links, k, i);
      assert i == |links| ==> Squeeze(LinkedOutput(line, links, i)) == Squeeze(line);
    }
  }

  /** Iteration i - 1 appends the text before link i - 1, the link and,
      after the last link, the tail; each squeezes like the piece of the
      line it comes from. */
  lemma StepKeepsText(line: string, links: seq<Link>, k: nat, i: nat)
    requires Sorted(line, links, 0) && i == k + 1 <= |links|
    requires PrevEnd(links, k, 0) <= |line|
    requires Squeeze(LinkedOutput(line, links, k)) == Squeeze(line[..PrevEnd(links, k, 0)])
    ensures PrevEnd(links, i, 0) <= |line|
    ensures i < |links| ==> Squeeze(LinkedOutput(line, links, i)) == Squeeze(line[..PrevEnd(links, i, 0)])
    ensures i == |links| ==> Squeeze(LinkedOutput(line, links, i)) == Squeeze(line)
  {
    LinkedOutputStep(line, links, k);
    var l := links[k];
    var p := PrevEnd(links, k, 0);
    var last := i == |links|;
    var tail: string := if last then Format(line[l.End()..]) else [];
    var rawTail: string := if last then line[l.End()..] else [];
    var prev := LinkedOutput(line, links, k);
    var plain := Format(line[p..l.start]);
    var link := HandleLinks(line[l.start..l.End()]);
    assert LinkedOutput(line, links, i) == prev + plain + link + tail;
    SpacingFacts.FormatKeepsText(line[p..l.start]);
    HandleLinksKeepsText(line, l);
    SpacingFacts.FormatKeepsText(line[l.End()..]);
    assert Squeeze(tail) == Squeeze(rawTail);
    SqueezeFour(prev, plain, link, tail, line[..p], line[p..l.start], line[l.start..l.End()], rawTail);
    PiecesOfLine(line, p, l.start, l.End(), last);
    assert PrevEnd(links, i, 0) == l.End();
    if last {
      assert Squeeze(LinkedOutput(line, links, i)) == Squeeze(line);
    } else {
      assert Squeeze(LinkedOutput(line, links, i)) == Squeeze(line[..l.End()]);
    }
  }

  /** The line up to e is its pieces up to p, from p to q and from q to e;
      with the rest after e it is the whole line. */
  lemma PiecesOfLine(line: string, p: nat, q: nat, e: nat, last: bool)
    requires p <= q <= e <= |line|
    ensures line[..p] + line[p..q] + line[q..e] + (if last then line[e..] else [])
         == if last then line else line[..e]
  {
    assert line[..p] + line[p..q] + line[q..e] == line[..e];
    if last {
      assert line[..e] + line[e..] == line;
    } else {
      assert line[..e] + [] == line[..e];
    }
  }

  /** Pieces that squeeze alike concatenate to texts that squeeze alike. */
  lemma SqueezeFour(a: string, b: string, c: string, d: string, a': string, b': string, c': string, d': string)
    requires Squeeze(a) == Squeeze(a') && Squeeze(b) == Squeeze(b')
    requires Squeeze(c) == Squeeze(c') && Squeeze(d) == Squeeze(d')
    ensures Squeeze(a + b + c + d) == Squeeze(a' + b' + c' + d')
  {
    SqueezeTwo(a, b, a', b');
    SqueezeTwo(a + b, c, a' + b', c');
    SqueezeTwo(a + b + c, d, a' + b' + c', d');
  }

  /** doFormatWithLink changes nothing but spaces. */
  lemma WithLinksKeepsText(line: string, links: seq<Link>)
    requires Sorted(line, links, 0) && |links| > 0
    ensures Squeeze(WithLinks(line, links)) == Squeeze(line)
  {
    LinkedOutputKeepsText(line, links, |links|);
  }
}
