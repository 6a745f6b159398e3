/** Inserting spaces between the runes of a span.  Both spacing engines
    write every input rune in order and, after each rune, some number of
    spaces; `Weave` describes that output from the runes and the per-rune
    space counts ("gaps"). */
module Interleave {

  /** n space runes */
  function Spaces(n: nat): (r: string)
    ensures |r| == n && forall i :: 0 <= i < n ==> r[i] == ' '
  {
    if n == 0 then [] else " " + Spaces(n - 1)
  }

  lemma {:induction false} SpacesAdd(a: nat, b: nat)
    ensures Spaces(a) + Spaces(b) == Spaces(a + b)
  {
    if a > 0 {
      SpacesAdd(a - 1, b);
    }
  }

  /** A rune followed by a spaces and then b spaces is the rune followed
      by a + b spaces. */
  lemma RuneThenSpaces(c: char, a: nat, b: nat)
    ensures [c] + Spaces(a) + Spaces(b) == [c] + Spaces(a + b)
  {
    SpacesAdd(a, b);
    assert [c] + Spaces(a) + Spaces(b) == [c] + (Spaces(a) + Spaces(b));
  }

  /** s[0], gaps[0] spaces, s[1], gaps[1] spaces, ... */
  function Weave(s: string, gaps: seq<nat>): string
    requires |s| == |gaps|
  {
    if s == [] then [] else [s[0]] + Spaces(gaps[0]) + Weave(s[1..], gaps[1..])
  }

  /** Weaving one more rune onto a prefix appends that rune and its gap. */
  lemma {:induction false} WeaveSnoc(s: string, gaps: seq<nat>, c: char, g: nat)
    requires |s| == |gaps|
    ensures Weave(s + [c], gaps + [g]) == Weave(s, gaps) + [c] + Spaces(g)
  {
    if s == [] {
      assert Weave([c], [g]) == [c] + Spaces(g) + Weave([], []);
    } else {
      assert (s + [c])[1..] == s[1..] + [c];
      assert (gaps + [g])[1..] == gaps[1..] + [g];
      WeaveSnoc(s[1..], gaps[1..], c, g);
    }
  }

  /** Deleting the inserted spaces: keep one rune, skip its gap, repeat. */
  function Unweave(out: string, gaps: seq<nat>): string
    decreases |gaps|
  {
    if gaps == [] || out == [] then []
    else if 1 + gaps[0] <= |out| then [out[0]] + Unweave(out[1 + gaps[0]..], gaps[1..])
    else [out[0]]
  }

  /** Deleting the inserted spaces gives back the input. */
  lemma {:induction false} UnweaveWeave(s: string, gaps: seq<nat>)
    requires |s| == |gaps|
    ensures Unweave(Weave(s, gaps), gaps) == s
  {
    if s != [] {
      var w := Weave(s, gaps);
      assert w[1 + gaps[0]..] == Weave(s[1..], gaps[1..]);
      UnweaveWeave(s[1..], gaps[1..]);
    }
  }

  /** With no gaps the span is written back unchanged. */
  lemma {:induction false} WeaveNoGaps(s: string, gaps: seq<nat>)
    requires |s| == |gaps|
    requires forall i :: 0 <= i < |gaps| ==> gaps[i] == 0
    ensures Weave(s, gaps) == s
  {
    if s != [] {
      WeaveNoGaps(s[1..], gaps[1..]);
      assert s == [s[0]] + s[1..];
    }
  }

  /** out is s with at most one space inserted after each rune, and none
      after the last one. */
  predicate SpacedFrom(out: string, s: string)
    decreases |s|
  {
    if |s| <= 1 then out == s
    else
      |out| >= 1 && out[0] == s[0] &&
      (SpacedFrom(out[1..], s[1..]) ||
       (|out| >= 2 && out[1] == ' ' && SpacedFrom(out[2..], s[1..])))
  }

  /** Gaps of at most one, and none after the last rune, weave into a
      spacing of s. */
  lemma {:induction false} WeaveSpaced(s: string, gaps: seq<nat>)
    requires |s| == |gaps|
    requires forall i :: 0 <= i < |gaps| ==> gaps[i] <= 1
    requires |gaps| > 0 ==> gaps[|gaps| - 1] == 0
    ensures SpacedFrom(Weave(s, gaps), s)
  {
    if |s| == 1 {
      assert Weave(s, gaps) == [s[0]] + Spaces(0) + Weave([], []);
    } else if |s| > 1 {
      var w := Weave(s, gaps);
      WeaveSpaced(s[1..], gaps[1..]);
      if gaps[0] == 0 {
        assert w[1..] == Weave(s[1..], gaps[1..]);
      } else {
        assert w[2..] == Weave(s[1..], gaps[1..]);
      }
    }
  }

  /** The text with every space rune U+0020 deleted. */
  function Squeeze(s: string): (r: string)
    ensures |r| <= |s| && ' ' !in r
  {
    if s == [] then []
    else if s[0] == ' ' then Squeeze(s[1..])
    else [s[0]] + Squeeze(s[1..])
  }

  /** Squeezing works piece by piece. */
  lemma {:induction false} SqueezeAppend(a: string, b: string)
    ensures Squeeze(a + b) == Squeeze(a) + Squeeze(b)
  {
    if a == [] {
      assert a + b == b;
    } else {
      assert (a + b)[0] == a[0];
      assert (a + b)[1..] == a[1..] + b;
      SqueezeAppend(a[1..], b);
    }
  }

  /** Nothing but spaces squeezes to nothing. */
  lemma {:induction false} SqueezeSpaces(n: nat)
    ensures Squeeze(Spaces(n)) == []
  {
    if n > 0 {
      assert Spaces(n)[1..] == Spaces(n - 1);
      SqueezeSpaces(n - 1);
    }
  }

  /** Inserting spaces leaves the text without spaces as it was. */
  lemma {:induction false} SqueezeWeave(s: string, gaps: seq<nat>)
    requires |s| == |gaps|
    ensures Squeeze(Weave(s, gaps)) == Squeeze(s)
  {
    if s != [] {
      SqueezeWeave(s[1..], gaps[1..]);
      SqueezeAppend([s[0]] + Spaces(gaps[0]), Weave(s[1..], gaps[1..]));
      SqueezeAppend([s[0]], Spaces(gaps[0]));
      SqueezeSpaces(gaps[0]);
      SqueezeAppend([s[0]], s[1..]);
      assert s == [s[0]] + s[1..];
      assert Squeeze([s[0]]) == if s[0] == ' ' then [] else [s[0]];
    }
  }

  /** Squeezing keeps exactly the runes that are not spaces. */
  lemma {:induction false} SqueezeMembers(s: string, c: char)
    ensures c in Squeeze(s) <==> c in s && c != ' '
  {
    if s != [] {
      SqueezeMembers(s[1..], c);
      assert s == [s[0]] + s[1..];
    }
  }

  /** Pieces that squeeze alike concatenate to texts that squeeze alike. */
  lemma SqueezeTwo(a: string, b: string, a': string, b': string)
    requires Squeeze(a) == Squeeze(a') && Squeeze(b) == Squeeze(b')
    ensures Squeeze(a + b) == Squeeze(a' + b')
  {
    SqueezeAppend(a, b);
    SqueezeAppend(a', b');
  }

  /** Appending three pieces at once or one after the other. */
  lemma ConcatAssoc(r: string, a: string, b: string, c: string)
    ensures r + (a + b + c) == r + a + b + c
  {
  }

  /** A slice of a slice is a slice of the whole. */
  lemma SliceOfSlice(s: string, a: nat, b: nat, x: nat, y: nat, c: nat, d: nat)
    requires a <= b <= |s| && x <= y <= b - a && c == a + x && d == a + y
    ensures s[a..b][x..y] == s[c..d]
  {
    assert forall i :: 0 <= i < y - x ==> s[a..b][x..y][i] == s[c + i];
  }
}
