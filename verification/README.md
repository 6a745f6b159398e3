# HeySpace in Dafny

HeySpace formats Chinese/English Markdown. It inserts a space between an
ideograph and a Latin rune, and around Markdown emphasis (`*`, `**`) and
inline code (`` ` ``) that touch an ideograph. It leaves fenced code blocks
alone and squeezes blank lines. This project models the formatting core
and proves what it promises:

- `Classify` and `SpaceClassify`: the rune classes of `utils.go` and of its
  older copy `space/classify.go`.
- `Spacing`: the span engine `doFormat` and its five helpers. It is given
  as spec functions (`StepAt`, `StateAt`, `Gaps`, `Format`) and as the
  imperative loop `DoFormat`, proved equal to `Format`.
- `Links`: the two link patterns of `handler.go`, written as scanners with
  the patterns' leftmost-first semantics. Also `handleLinks` and the loop
  `doFormatWithLink`.
- `Markdown`: `formatLine` and `FormatMarkdown`. The two package-level
  flags are the fields of a `Formatter` object. Its methods are proved
  against the spec functions `LineOut` and `Run`.
- `SpaceBlock` and `SpaceHandler`: the older handler of `space/handler.go`.
  That is `MarkdownHandler` (with `handleBlock`, `handleLine` and
  `HandleText`) and `PlainTextHandler`.
- `GoStrings` and `Interleave`: the Go library calls the core makes.
  These are `strings.Split`/`Join`/`TrimLeft`/`TrimSpace`/`HasPrefix` and
  `unicode.IsDigit`/`IsSpace`. `Interleave` holds the vocabulary of
  "writes each rune, then some spaces" (`Weave`, `Unweave`, `SpacedFrom`,
  `Squeeze`).
- `SpacingFacts`, `MarkdownFacts`, `SpaceFacts`, `SpaceHandlerFacts`: the
  properties.
- `SpacingCases` and `DocCases`: worked examples on concrete inputs.

Behaviour worth knowing, modelled as the code has it:

- `FormatMarkdown` (handler.go:54-86) drops every blank line outside a
  code block. It never keeps one per run, because a blank line is appended
  in neither branch, so `emptyFlag` has no effect on the output
  (`EmptyFlagIgnored`). The older `HandleText` keeps one empty line per
  run (`CollapseHasNoBlankRuns`). `DocCases` shows both on `"a\n\n\nb"`.
  The comment at handler.go:72 promises one blank line per run, as the
  older handler does. The model follows the code.
- In `doFormat` the previous-rune register is reassigned only after an
  ideograph, or after `*` or `` ` `` when an ideograph follows
  (`PreRuneSticky`). After an ideograph it holds the rune that follows it.
  So in `中*a*中` the closing `*` is taken for the end of bold, and no space
  is written before the second ideograph (`ItalicOneRuneBetweenIdeographs`).
  The older engine writes `中 *a* 中` (`BlockItalicOneRuneBetweenIdeographs`).
- The older `handleLine` does not trim leading spaces of header, list and
  plain text; only quotes are trimmed. The newer one trims all four
  prefixed kinds.

## Model

| member | source | states |
|---|---|---|
| GoStrings.HasPrefix | handler.go:91 | strings.HasPrefix: the first runes of s are p; used for fences, quotes and list items |
| GoStrings.IsSpace | handler.go:73 | unicode.IsSpace, the rune test behind strings.TrimSpace; its blank-line consequences are `MarkdownFacts.BlankIff` and `SpaceHandlerFacts.BlankIff` |
| GoStrings.IsBlank | handler.go:73 | strings.TrimSpace(s) == "": every rune of s is white space |
| GoStrings.IsDigit | utils.go:32-34 | unicode.IsDigit as the Nd range table; on ASCII stated by `AsciiDigits`, on ideographs by `NoDigitAmongIdeographs` |
| GoStrings.TrimLeftSpaces | handler.go:107 | strings.TrimLeft(s, " ") returns a suffix of s that does not start with ' ', and every dropped rune is ' ' |
| GoStrings.AsciiDigits | utils.go:32-34 | on ASCII runes unicode.IsDigit accepts exactly '0'..'9' |
| GoStrings.NoDigitAmongIdeographs | utils.go:9-34 | no rune of the ideograph range U+4E00..U+9FA5 is a digit for unicode.IsDigit |
| GoStrings.Split | handler.go:56 | strings.Split on "\n" yields at least one piece, and no piece holds a newline |
| GoStrings.JoinSplit | handler.go:56-85 | joining the split lines with "\n" gives the text back |
| GoStrings.SplitJoin | space/handler.go:44-61 | splitting the join of newline-free lines gives the lines back |
| GoStrings.Join | handler.go:85 | strings.Join(lines, "\n"): the lines with one newline between each two; inverse of Split by `JoinSplit` and `SplitJoin` |
| Classify.IsZh | utils.go:9-15 | isZh: U+4E00..U+9FA5; disjointness from the Latin class is `ZhNotGeneralEn` |
| Classify.IsDigit | utils.go:32-34 | isDigit: unicode.IsDigit |
| Classify.IsAlpha | utils.go:37-39 | isAlpha: the two ASCII letter ranges; stated by `AlphaIsAscii` |
| Classify.IsGeneralEnSymbol | utils.go:42-54 | isGeneralEnSymbol: membership in the 21 listed symbols |
| Classify.IsGeneralEn | utils.go:18-29 | isGeneralEn: digit, letter or listed symbol; on ASCII stated by `AsciiGeneralEn` |
| Classify.IsMarkdownEnSymbol | utils.go:57-67 | isMarkdownEnSymbol: * or `; stated by `MarkerSets` |
| Classify.IsEnLeftBracket | utils.go:70-75 | isEnLeftBracket: ( or [; stated by `MarkerSets` |
| Classify.IsEnRightBracket | utils.go:78-83 | isEnRightBracket: ) or ]; stated by `MarkerSets` |
| Classify.AsciiGeneralEn | utils.go:18-54 | on ASCII, a rune is general English iff it is a letter, a digit or one of the listed symbols; no ASCII rune is an ideograph |
| Classify.ZhNotGeneralEn | utils.go:9-29 | no rune is both an ideograph and general English |
| Classify.MarkupIsNeutral | utils.go:17-83 | * ` ( ) [ ] and space are neither English nor ideographs; the marker and bracket predicates pick exactly their runes |
| Classify.AlphaIsAscii | utils.go:37-39 | isAlpha accepts only ASCII letters, which are general English and no ideograph |
| Classify.MarkerSets | utils.go:57-83 | the Markdown marker set is exactly { *, ` } and is disjoint from both bracket sets, which are disjoint from each other |
| SpaceClassify.IsZh | space/classify.go:8-13 | isZh of the older copy; equal to `Classify.IsZh` by `AgreesWithClassify` |
| SpaceClassify.IsDigit | space/classify.go:30-32 | isDigit of the older copy; equal to its namesake by `AgreesWithClassify` |
| SpaceClassify.IsAlpha | space/classify.go:35-37 | isAlpha of the older copy; equal to its namesake by `AgreesWithClassify` |
| SpaceClassify.IsGeneralEnSymbol | space/classify.go:40-52 | isGeneralEnSymbol of the older copy; equal to its namesake by `AgreesWithClassify` |
| SpaceClassify.IsGeneralEn | space/classify.go:16-27 | isGeneralEn of the older copy; equal to its namesake by `AgreesWithClassify` |
| SpaceClassify.IsMarkdownEnSymbol | space/classify.go:55-65 | isMarkdownEnSymbol of the older copy; equal to its namesake by `AgreesWithClassify` |
| SpaceClassify.IsEnLeftBracket | space/classify.go:68-73 | isEnLeftBracket of the older copy; equal to its namesake by `AgreesWithClassify` |
| SpaceClassify.IsEnRightBracket | space/classify.go:76-81 | isEnRightBracket of the older copy; equal to its namesake by `AgreesWithClassify` |
| SpaceClassify.AgreesWithClassify | space/classify.go:8-81 | each of the eight older predicates agrees with its namesake in utils.go on every rune |
| SpaceClassify.MarkupIsNeutral | space/classify.go:16-52 | the markers and brackets are neither English nor ideographs in the older classifier |
| SpaceClassify.ZhNotGeneralEn | space/classify.go:8-27 | no rune is both an ideograph and general English in the older classifier |
| Spacing.BaseGap | handler.go:228-237 | the base rule between a rune and the next; stated as an iff by `SpacingFacts.BaseRule` |
| Spacing.ZhStarGap | handler.go:282-305 | doZhStar; stated by `SpacingFacts.ZhBeforeStar` |
| Spacing.ZhBackQuoteGap | handler.go:307-317 | doZhBackQuote; stated by `SpacingFacts.ZhBeforeBackQuote` |
| Spacing.BoldStarZhGap | handler.go:319-331 | doBoldStarZh; stated by `SpacingFacts.BoldStarBeforeZh`, its unguarded read by `UnguardedLookbackInRange` |
| Spacing.SingleStarZhGap | handler.go:333-340 | doSingleStarZh; stated by `SpacingFacts.ItalicStarBeforeZh` |
| Spacing.BackQuoteZhGap | handler.go:342-349 | doBackQuoteZh; stated by `SpacingFacts.BackQuoteBeforeZh` |
| Spacing.StepAt | handler.go:207-276 | one loop iteration keeps the registers reachable: bold counter non-negative and below the index, preRune '*' only after the first rune |
| Spacing.StateAt | handler.go:194-204 | the registers at every index are reachable from Go's zero values |
| Spacing.Gaps | handler.go:207-277 | doFormat decides one gap for each rune of the span |
| Spacing.Format | handler.go:193-280 | doFormat's output: each rune followed by its gap; `DoFormat` computes it, `FormatInsertsOnlySpaces` and `FormatKeepsText` state it |
| Spacing.FormatPrefixGrows | handler.go:207-208 | writing rune idx and its spaces extends the output of the first idx runes to that of idx + 1 runes |
| Spacing.ScanRune | handler.go:207-276 | one pass of the loop body writes the rune and exactly the spaces StepAt decides, and moves the registers as StepAt does |
| Spacing.DoFormat | handler.go:193-280 | the loop's output is Format(line): every rune followed by its gap of spaces |
| SpacingFacts.GapAtMostOne | handler.go:224-276 | at most one space is written after a rune, and none after the last |
| SpacingFacts.FormatInsertsOnlySpaces | handler.go:193-280 | the output is the span with at most one space after each rune but the last; removing the gaps gives the span back; its length is between n and 2n - 1 |
| SpacingFacts.SpacedLength | handler.go:207-277 | any such spacing of a non-empty span is at least as long as the span and shorter than twice its length |
| SpacingFacts.NoZhUnchanged | handler.go:224-276 | a span without ideographs is returned unchanged |
| SpacingFacts.BaseRule | handler.go:228-237 | between two runes neither of which is * or `, one space iff ideograph then English, English then ideograph, ideograph then ( or [, or ) or ] then ideograph |
| SpacingFacts.CountersCountMarkers | handler.go:211-221 | italic + 2 * bold is the number of '*' seen so far, and the backquote counter the number of '`' |
| SpacingFacts.ItalicParity | handler.go:211-221 | the italic counter is even iff an even number of '*' has been seen |
| SpacingFacts.ZhBeforeStar | handler.go:282-305 | an ideograph before ** gets a space iff the bold counter is even and the rune after ** exists and is English; before a single * iff an even number of * precede it and the rune after it is English |
| SpacingFacts.ZhBeforeBackQuote | handler.go:307-317 | an ideograph before ` gets a space iff an even number of ` precede it and the rune after the ` exists and is English |
| SpacingFacts.BoldStarBeforeZh | handler.go:319-331 | a * closing bold before an ideograph gets a space iff the bold count is even and the rune two back (index > 0) is neither * nor ideograph, or after *** the rune three back (index > 0) is no ideograph |
| SpacingFacts.ItalicStarBeforeZh | handler.go:333-340 | a * closing italic before an ideograph gets a space iff the number of * up to it is even and the rune before it (index > 0) is no ideograph |
| SpacingFacts.ItalicCloseStep | handler.go:257-265 | on such a *, the gap is doSingleStarZh's with the italic counter after counting it |
| SpacingFacts.BackQuoteBeforeZh | handler.go:342-349 | a ` before an ideograph gets a space iff the number of ` up to it is even and the rune before it (index > 0) is no ideograph |
| SpacingFacts.UnguardedLookbackInRange | handler.go:319-331 | the unguarded read line[idx-2] in doBoldStarZh happens only at idx >= 2, so it never goes out of range |
| SpacingFacts.PreRuneSticky | handler.go:252-274 | preRune changes only after an ideograph, or after * or ` followed by an ideograph |
| SpacingFacts.FormatKeepsText | handler.go:193-280 | deleting all spaces from the output and from the span gives the same text |
| SpacingCases.ItalicOneRuneBetween | handler.go:244-268 | ideograph, *, one English rune, *, ideograph: a space only after the first ideograph, none before the last |
| SpacingCases.ItalicOneRuneBetweenIdeographs | handler.go:244-268 | 中*a*中 becomes 中 *a*中: the sticky register makes the closing * read as the end of bold |
| SpacingCases.BlockItalicOneRuneBetweenIdeographs | space/handler.go:110-196 | the older engine turns 中*a*中 into 中 *a* 中 |
| SpacingCases.BlockItalicOneRuneBetween | space/handler.go:110-196 | the older engine spaces the same shape on both sides of the italic text |
| Links.FindCloser | handler.go:30 | the lazy `.*?\]\(` of a link: the first "](" at or after t on the same line, with no newline before it, or none exists |
| Links.FindParen | handler.go:30 | the lazy `.*?\)` of a link: the first ')' at or after t with no newline before it, or none exists |
| Links.BracketLink | handler.go:30 | a link found from a '[' is well shaped and starts where the pattern started |
| Links.LinkAt | handler.go:30 | a link matched at q is well shaped and starts with "![" or "[" at q |
| Links.FindLink | handler.go:30 | the leftmost link at or after from, with no link starting in between; none means no link starts anywhere after from |
| Links.AllLinks | handler.go:122 | FindAllStringSubmatchIndex: links in order, not overlapping, and no link starts in any gap between them or after the last |
| Links.HandleLinks | handler.go:351-358 | handleLinks: re-match the link, keep "!" and the target, format the text; stated by `HandleLinksOfLink` and `HandleLinksKeepsText` |
| Links.WithLinks | handler.go:131-191 | doFormatWithLink's output over the links found; computed by `DoFormatWithLink`, stated by `WithLinksKeepsText` |
| Links.DoFormatWithLink | handler.go:131-191 | the loop's output is WithLinks: the formatted text between links, each link through handleLinks, and the formatted tail |
| Links.LinkInWindow | handler.go:31 | cut out of the line, a found link is still found at the start of its slice |
| Links.HandleLinksOfLink | handler.go:351-358 | on a found link, handleLinks keeps the optional '!' and the target and formats only the link text |
| Links.LinkPieces | handler.go:354 | the slice of a link is exactly "!"? + "[" + text + "](" + target + ")" |
| Links.HandleLinksKeepsText | handler.go:351-358 | handleLinks on a link changes nothing but spaces |
| Links.WithLinksKeepsText | handler.go:131-191 | doFormatWithLink changes nothing but spaces |
| Markdown.HeaderMatch | handler.go:28 | a match is one or more '#' followed by an RE2 \s; no match means no such prefix exists |
| Markdown.OrderedMatch | handler.go:29 | a match is ASCII digits, '.', and an RE2 \s; no match means no such prefix exists |
| Markdown.TakeLine | handler.go:28-29 | group `(.*)` is the longest newline-free prefix of the rest |
| Markdown.IsFence | handler.go:91 | a line starting with three backquotes |
| Markdown.Body | handler.go:103-128 | formatLine outside code on a non-fence line, the kinds tried in the source order; its text is kept by `MarkdownFacts.LineOutKeepsText` |
| Markdown.LineOut | handler.go:88-129 | formatLine's result from the code flag; computed by `Formatter.FormatLine` |
| Markdown.Emit | handler.go:62-82 | one iteration of FormatMarkdown's loop; stated by `MarkdownFacts.PlainRun`, `CodeRun` and `BlankIff` |
| Markdown.Run | handler.go:62-83 | the loop over lines; computed by `Formatter.FormatMarkdown`, stated by `RunAppend`, `CodeParity`, `RunAppendsOnly` and `FencedBlock` |
| Markdown.NextCode | handler.go:88-101 | the code flag flips exactly on a fence line |
| Markdown.Formatter.constructor | handler.go:34-37 | both flags start false |
| Markdown.Formatter.FormatLine | handler.go:88-129 | returns LineOut: fences and code lines unchanged, else spaced by kind; the code flag moves by NextCode; the empty flag is untouched |
| Markdown.Formatter.FormatMarkdown | handler.go:54-86 | returns the join of what Run keeps over the split lines, and leaves both flags as Run says |
| MarkdownFacts.TrimLeftKeepsText | handler.go:107 | trimming leading spaces changes nothing but spaces |
| MarkdownFacts.TakeLineWhole | handler.go:110-116 | on a newline-free line, group 2 is the whole rest of the line |
| MarkdownFacts.LineOutKeepsText | handler.go:88-129 | formatLine changes nothing but spaces on a line |
| MarkdownFacts.RunAppend | handler.go:62-83 | running over a + b is running over a, then over b from there |
| MarkdownFacts.CodeParity | handler.go:88-101 | after a run, the code flag is the start flag flipped once per fence line |
| MarkdownFacts.RunAppendsOnly | handler.go:54-86 | lines are only appended, at most one per input line, and earlier output is never changed |
| MarkdownFacts.EmptyFlagIgnored | handler.go:66-82 | the output and the code flag do not depend on the starting empty flag |
| MarkdownFacts.BlankIff | handler.go:73 | outside code, a formatted line is blank iff the input line is |
| MarkdownFacts.PlainRun | handler.go:62-83 | without fences and outside code, the output is exactly the formatted non-blank lines in order |
| MarkdownFacts.CodeRun | handler.go:66-70 | inside a code block, fence-free lines are output unchanged, blank ones included |
| MarkdownFacts.FencedBlock | handler.go:62-101 | a fenced block is output verbatim, and the code flag is off after it |
| MarkdownFacts.PlainDocument | handler.go:54-86 | a document without fences comes out as its formatted non-blank lines |
| SpaceBlock.BlockStep | space/handler.go:111-196 | one iteration of handleBlock's loop; computed by `SpaceHandler.BlockRune` |
| SpaceBlock.BlockState | space/handler.go:106-123 | the registers when the scan reaches an index; stated by `SpaceFacts.BlockCounters` and `BlockPreIsPrevious` |
| SpaceBlock.Block | space/handler.go:102-200 | handleBlock's output; computed by `MarkdownHandler.HandleBlock`, stated by `SpaceFacts.BlockInsertsOnlySpaces` and `BlockKeepsText` |
| SpaceBlock.BlockGaps | space/handler.go:110-196 | handleBlock decides one gap for each rune |
| SpaceBlock.BlockPrefixGrows | space/handler.go:110-112 | writing rune i and its spaces extends the output of the first i runes |
| SpaceHandler.BlockBody | space/handler.go:73-90 | handleLine outside code on a non-fence line; its text is kept by `SpaceHandlerFacts.LineOutKeepsText` |
| SpaceHandler.LineOut | space/handler.go:66-100 | handleLine's result from the code flag; computed by `MarkdownHandler.HandleLine` |
| SpaceHandler.Emit | space/handler.go:47-60 | one iteration of HandleText's loop; stated by `SpaceHandlerFacts.PlainRun`, `CodeRun` and `BlankIff` |
| SpaceHandler.Run | space/handler.go:47-60 | the loop over lines; computed by `MarkdownHandler.HandleText`, stated by `RunAppend`, `CodeParity`, `RunAppendsOnly`, `FencedBlock` and `CollapseHasNoBlankRuns` |
| SpaceHandler.MarkdownHandler.constructor | space/handler.go:26-34 | holds the text, both flags false |
| SpaceHandler.MarkdownHandler.HandleBlock | space/handler.go:102-200 | the loop's output is Block(line) |
| SpaceHandler.MarkdownHandler.HandleLine | space/handler.go:66-100 | returns the older LineOut; the code flag moves by NextCode; the empty flag and the text are untouched |
| SpaceHandler.MarkdownHandler.HandleText | space/handler.go:43-63 | returns the join of what the older Run keeps over the split lines, and leaves both flags as it says |
| SpaceHandler.BlockRune | space/handler.go:111-196 | one pass of the loop body writes the rune and the spaces BlockStep decides, and moves the registers as BlockStep does |
| SpaceHandler.PlainTextHandler.constructor | space/handler.go:36-40 | holds the text |
| SpaceHandler.PlainTextHandler.HandleText | space/handler.go:203-205 | returns the empty string |
| SpaceHandler.PlainTextHandler.HandleLine | space/handler.go:207-209 | returns the empty string |
| SpaceFacts.BlockGapAtMostOne | space/handler.go:124-196 | at most one space after a rune, none after the last |
| SpaceFacts.BlockInsertsOnlySpaces | space/handler.go:102-200 | the output is the span with at most one space after each rune but the last, and removing the gaps gives it back |
| SpaceFacts.BlockKeepsText | space/handler.go:102-200 | deleting all spaces from output and span gives the same text |
| SpaceFacts.BlockNoZhUnchanged | space/handler.go:124-196 | a span without ideographs is returned unchanged |
| SpaceFacts.BlockPreIsPrevious | space/handler.go:195 | preRune always holds the previous rune |
| SpaceFacts.BlockCounters | space/handler.go:113-123 | italic + 2 * bold counts the '*' seen, the point counter the '`' seen |
| SpaceFacts.BlockBackQuoteBeforeZh | space/handler.go:190-193 | a ` before an ideograph always gets a space |
| SpaceFacts.BlockStarBeforeZh | space/handler.go:178-189 | a * before an ideograph gets a space iff, after another *, the bold counter is even, and otherwise the number of * up to it is even |
| SpaceFacts.BlockItalicParity | space/handler.go:113-120 | the italic counter is even iff an even number of '*' has been seen |
| SpaceFacts.BlockStarStep | space/handler.go:178-189 | the step on a * before an ideograph in terms of the registers; at index 0 preRune is not '*' |
| SpaceFacts.EnginesAgree | space/handler.go:102-200 | on a span without * and `, handleBlock and doFormat give the same output |
| SpaceFacts.BlockBaseRule | space/handler.go:128-137 | between two runes that are not * or `, handleBlock writes one space iff ideograph/English, English/ideograph, ideograph/( or [, or ) or ]/ideograph, whatever the rest of the span holds |
| SpaceFacts.BlockZhBeforeStar | space/handler.go:140-167 | an ideograph before ** gets a space iff the bold counter is even and the rune after ** exists and is English; before a single * iff an even number of * precede it and the rune after it is English |
| SpaceFacts.BlockZhBeforeBackQuote | space/handler.go:168-176 | an ideograph before ` gets a space iff an even number of ` precede it and the rune after the ` exists and is English |
| SpaceFacts.ZhMarkerGapAgrees | space/handler.go:140-176 | the older lookahead after an ideograph is exactly doZhStar / doZhBackQuote of handler.go |
| SpaceHandlerFacts.LineOutKeepsText | space/handler.go:66-100 | handleLine changes nothing but spaces on a line |
| SpaceHandlerFacts.BlankIff | space/handler.go:50 | outside code, a handled line is blank iff the input line is |
| SpaceHandlerFacts.PlainRun | space/handler.go:47-60 | without fences and outside code, the output is Collapse: non-blank lines handled, each run of blank lines one "" |
| SpaceHandlerFacts.CollapseHasNoBlankRuns | space/handler.go:49-58 | in that output every blank line is "", no two are adjacent, and none follows a blank line before the part |
| SpaceHandlerFacts.RunAppend | space/handler.go:47-60 | running over a + b is running over a, then over b from there |
| SpaceHandlerFacts.CodeParity | space/handler.go:66-99 | after a run, the code flag is the start flag flipped once per fence line |
| SpaceHandlerFacts.RunAppendsOnly | space/handler.go:43-62 | lines are only appended, at most one per input line, and earlier output is never changed |
| SpaceHandlerFacts.CodeRun | space/handler.go:47-60 | inside a code block, fence-free lines are output unchanged, blank ones included, and the empty flag is off |
| SpaceHandlerFacts.FencedBlock | space/handler.go:47-99 | a fenced block is output verbatim, fences and blank lines included, and the code flag is off after it |
| SpaceHandlerFacts.NoMoreLinesThanText | space/handler.go:43-62 | HandleText's output has at most as many lines as the text |
| DocCases.PlainRune | handler.go:127-128 | a one-letter line is left unchanged by both handlers |
| DocCases.SplitBlankRun | handler.go:56 | a line, three newlines and a line split into the two lines around two empty lines |
| DocCases.KeptAroundBlanks | handler.go:73-82 | FormatMarkdown keeps nothing of two blank lines between two lines |
| DocCases.CollapseAroundBlanks | space/handler.go:50-59 | HandleText keeps one "" for two blank lines between two lines |
| DocCases.DropsAroundBlanks | handler.go:62-83 | two plain lines around two empty lines: FormatMarkdown's loop outputs just the two formatted lines |
| DocCases.CollapsesAroundBlanks | space/handler.go:47-60 | the same through HandleText's loop: the two handled lines with one "" between them |
| DocCases.DropsBlankRun | handler.go:54-86 | "a\n\n\nb" yields the lines "a" and "b" |
| DocCases.CollapsesBlankRun | space/handler.go:43-63 | "a\n\n\nb" yields the lines "a", "" and "b" |

## Left out

- Clipboard, file and directory input, backups, command-line handling and
  logging (`handleClipboard`, `handleFileInput`, `handlePathInput`,
  `setBackupFilePath`, main.go, file/, clipboard/, utils/path.go). These
  are I/O around the core.
- The regular expressions are not run as a regex engine. Each pattern is a
  scanner with the match the pattern's leftmost-first semantics gives
  (`HeaderMatch`, `OrderedMatch`, `TakeLine`, `FindLink`, `AllLinks`).
- Go strings are byte sequences and `[]rune` decodes UTF-8. The model works
  on runes from the start, so byte offsets of the link matches are rune
  offsets here. Invalid UTF-8 (decoded as U+FFFD) is not modelled.
- `Links.DoFormatWithLink` takes the link records that `AllLinks` finds,
  not the raw index lists of `FindAllStringSubmatchIndex`. So the two
  guards for an empty or odd-length index list (handler.go:134-141) are
  not modelled; the pattern never produces such a list.
- Go `int` counters cannot overflow on any line that fits in memory; the
  counters are unbounded integers.
- `GoStrings.IsDigit` is `unicode.IsDigit` written as a table of the
  decimal-digit (Nd) ranges of one Unicode version. A rune whose category
  changes between versions may be classified differently.
- The two compiled patterns held by `MarkdownHandler` are not fields of the
  class. The handler uses `Markdown.HeaderMatch` and `Markdown.OrderedMatch`,
  which match what they compile.
- The `TextHandler` interface is not modelled as a type; both handlers
  provide its two methods.
- Spacing.StepAt: its contract states only that the registers stay
  reachable. What each step writes is stated by the lemmas of
  `SpacingFacts`.
- Spacing.StateAt: its contract states only reachability, for the same
  reason.
- Spacing.Gaps: its contract states only the length. The gap values are
  stated by `GapAtMostOne`, `BaseRule` and the marker lemmas.
- SpaceBlock.BlockGaps: its contract states only the length. The gap
  values are stated by `BlockGapAtMostOne`, `BlockBaseRule`,
  `BlockZhBeforeStar`, `BlockZhBeforeBackQuote`, `BlockStarBeforeZh` and
  `BlockBackQuoteBeforeZh`.
