/** The few pieces of Go's standard library that the formatter relies on:
    strings.HasPrefix, strings.TrimLeft(s, " "), strings.TrimSpace(s) == "",
    strings.Split(s, "\n") / strings.Join(lines, "\n"), unicode.IsDigit and
    unicode.IsSpace.  Strings are sequences of runes. */
module GoStrings {

  /** strings.HasPrefix */
  predicate HasPrefix(s: string, p: string) {
    |p| <= |s| && s[..|p|] == p
  }

  /** strings.TrimLeft(s, " "): drop every leading space (only U+0020). */
  function TrimLeftSpaces(s: string): (r: string)
    ensures |r| <= |s| && r == s[|s| - |r|..]
    ensures r == [] || r[0] != ' '
    ensures forall i :: 0 <= i < |s| - |r| ==> s[i] == ' '
  {
    if s != [] && s[0] == ' ' then TrimLeftSpaces(s[1..]) else s
  }

  /** unicode.IsSpace: the Latin-1 white space runes and the Unicode
      White_Space property above Latin-1. */
  predicate IsSpace(c: char) {
    c == '\t' || c == '\n' || c == '\U{000B}' || c == '\U{000C}' || c == '\r' || c == ' '
    || c == '\U{0085}' || c == '\U{00A0}' || c == '\U{1680}'
    || ('\U{2000}' <= c <= '\U{200A}')
    || c == '\U{2028}' || c == '\U{2029}' || c == '\U{202F}' || c == '\U{205F}'
    || c == '\U{3000}'
  }

  /** strings.TrimSpace(s) == "": every rune of s is white space. */
  predicate IsBlank(s: string) {
    forall i :: 0 <= i < |s| ==> IsSpace(s[i])
  }

  /** unicode.IsDigit: ASCII digits, and the decimal-digit (Nd) ranges of
      the Unicode tables. */
  predicate IsDigit(c: char) {
    var n := c as int;
    ('0' <= c <= '9')
    || (0x0660 <= n <= 0x0669) || (0x06F0 <= n <= 0x06F9) || (0x07C0 <= n <= 0x07C9)
    || (0x0966 <= n <= 0x096F) || (0x09E6 <= n <= 0x09EF) || (0x0A66 <= n <= 0x0A6F)
    || (0x0AE6 <= n <= 0x0AEF) || (0x0B66 <= n <= 0x0B6F) || (0x0BE6 <= n <= 0x0BEF)
    || (0x0C66 <= n <= 0x0C6F) || (0x0CE6 <= n <= 0x0CEF) || (0x0D66 <= n <= 0x0D6F)
    || (0x0DE6 <= n <= 0x0DEF) || (0x0E50 <= n <= 0x0E59) || (0x0ED0 <= n <= 0x0ED9)
    || (0x0F20 <= n <= 0x0F29) || (0x1040 <= n <= 0x1049) || (0x1090 <= n <= 0x1099)
    || (0x17E0 <= n <= 0x17E9) || (0x1810 <= n <= 0x1819) || (0x1946 <= n <= 0x194F)
    || (0x19D0 <= n <= 0x19D9) || (0x1A80 <= n <= 0x1A89) || (0x1A90 <= n <= 0x1A99)
    || (0x1B50 <= n <= 0x1B59) || (0x1BB0 <= n <= 0x1BB9) || (0x1C40 <= n <= 0x1C49)
    || (0x1C50 <= n <= 0x1C59) || (0xA620 <= n <= 0xA629) || (0xA8D0 <= n <= 0xA8D9)
    || (0xA900 <= n <= 0xA909) || (0xA9D0 <= n <= 0xA9D9) || (0xA9F0 <= n <= 0xA9F9)
    || (0xAA50 <= n <= 0xAA59) || (0xABF0 <= n <= 0xABF9) || (0xFF10 <= n <= 0xFF19)
    || (0x104A0 <= n <= 0x104A9) || (0x10D30 <= n <= 0x10D39) || (0x11066 <= n <= 0x1106F)
    || (0x110F0 <= n <= 0x110F9) || (0x11136 <= n <= 0x1113F) || (0x111D0 <= n <= 0x111D9)
    || (0x112F0 <= n <= 0x112F9) || (0x11450 <= n <= 0x11459) || (0x114D0 <= n <= 0x114D9)
    || (0x11650 <= n <= 0x11659) || (0x116C0 <= n <= 0x116C9) || (0x11730 <= n <= 0x11739)
    || (0x118E0 <= n <= 0x118E9) || (0x11950 <= n <= 0x11959) || (0x11C50 <= n <= 0x11C59)
    || (0x11D50 <= n <= 0x11D59) || (0x11DA0 <= n <= 0x11DA9) || (0x11F50 <= n <= 0x11F59)
    || (0x16A60 <= n <= 0x16A69) || (0x16AC0 <= n <= 0x16AC9) || (0x16B50 <= n <= 0x16B59)
    || (0x1D7CE <= n <= 0x1D7FF) || (0x1E140 <= n <= 0x1E149) || (0x1E2F0 <= n <= 0x1E2F9)
    || (0x1E4F0 <= n <= 0x1E4F9) || (0x1E950 <= n <= 0x1E959) || (0x1FBF0 <= n <= 0x1FBF9)
  }

  /** Below U+0080 unicode.IsDigit accepts exactly '0'..'9'. */
  lemma AsciiDigits(c: char)
    requires c as int < 0x80
    ensures IsDigit(c) <==> '0' <= c <= '9'
  {
  }

  /** No CJK unified ideograph (U+4E00 to U+9FA5) is a digit. */
  lemma NoDigitAmongIdeographs(c: char)
    requires '\U{4E00}' <= c <= '\U{9FA5}'
    ensures !IsDigit(c)
  {
    var n := c as int;
    assert 0x4E00 <= n <= 0x9FA5;
  }

  /** strings.Split(s, "\n"): the pieces between newlines; n newlines give
      n + 1 pieces. */
  function Split(s: string): (r: seq<string>)
    ensures |r| >= 1
    ensures forall i :: 0 <= i < |r| ==> '\n' !in r[i]
    decreases |s|
  {
    if '\n' !in s then [s]
    else
      var k := FirstNewline(s);
      [s[..k]] + Split(s[k + 1..])
  }

  /** Index of the first newline of s. */
  function FirstNewline(s: string): (k: nat)
    requires '\n' in s
    ensures k < |s| && s[k] == '\n' && forall i :: 0 <= i < k ==> s[i] != '\n'
  {
    if s[0] == '\n' then 0
    else FirstNewline(s[1..]) + 1
  }

  /** strings.Join(lines, "\n") */
  function Join(lines: seq<string>): (r: string)
  {
    if lines == [] then []
    else if |lines| == 1 then lines[0]
    else lines[0] + "\n" + Join(lines[1..])
  }

  /** Join undoes Split: splitting on newlines loses nothing. */
  lemma JoinSplit(s: string)
    ensures Join(Split(s)) == s
  {
    JoinPieces(s, Split(s));
  }

  /** `JoinSplit` over the pieces of s. */
  lemma {:induction false} JoinPieces(s: string, pieces: seq<string>)
    requires pieces == Split(s)
    ensures Join(pieces) == s
    decreases |s|
  {
    if '\n' in s {
      var k := FirstNewline(s);
      var head, tail := s[..k], s[k + 1..];
      var rest := Split(tail);
      assert pieces == [head] + rest;
      assert pieces[1..] == rest;
      JoinPieces(tail, rest);
      assert Join(pieces) == head + "\n" + tail;
      assert s == head + "\n" + tail;
    } else {
      assert pieces == [s];
    }
  }

  /** Split undoes Join on lines that hold no newline. */
  lemma {:induction false} SplitJoin(lines: seq<string>)
    requires |lines| >= 1
    requires forall i :: 0 <= i < |lines| ==> '\n' !in lines[i]
    ensures Split(Join(lines)) == lines
    decreases |lines|
  {
    if |lines| > 1 {
      var s := Join(lines);
      var rest := Join(lines[1..]);
      assert s == lines[0] + "\n" + rest;
      assert s[|lines[0]|] == '\n';
      assert '\n' in s;
      var k := FirstNewline(s);
      assert s[..|lines[0]|] == lines[0];
      assert k == |lines[0]|;
      assert s[..k] == lines[0];
      assert s[k + 1..] == rest;
      SplitJoin(lines[1..]);
    }
  }
}
