# Paginator model

A Dafny model of `test.go`, a small Go program that reads a text file,
reflows its words into lines of at most `MaxCharsPerLine` (80) characters,
groups the lines into pages of `MaxLinesPerPage` (25) lines, and writes the
pages to a file, each under a `--- Page N --- ` header and followed by an
empty line.

The model follows the Go code as written, quirks included:

- a partial line left in the buffer at the end of an input line is dropped;
- words never flow from one input line to the next;
- a line can be one word longer than the limit;
- the page check can be stepped over, after which the last page keeps growing;
- the arm at test.go:100-103 cannot be reached.

Modules, one file each:

- `Seqs` (`seqs.dfy`): generic sequence facts (associativity of `+`,
  `Repeat`).
- `Text` (`text.dfy`): `strings.Fields` on single-byte characters, joining
  words with single spaces, and the decimal rendering of `%d` with its
  parser.
- `Wrap` (`wrap.dfy`): the word step of the inner loop (`Place` for
  test.go:89-113, `Step` adding the full-line check at test.go:115-120),
  its left fold `WrapWords`, and a description of the sealed lines as
  groups of words.
- `Paging` (`paging.dfy`): the pages as values.
  - `ProcessWord`, `ProcessWords`, `ProcessLine`, `ProcessLines`, `Finish`
    and `Paginate` specify `paginateDocument`.
  - The lemmas state what the resulting document looks like.
- `Output` (`output.dfy`): `Render`, the text `SaveToFile` writes, and its
  line count.
- `Paginator` (`paginator.dfy`): the Go objects.
  - `Page` and `Document` are classes whose fields the methods update in
    place.
  - The methods follow the Go loops and are proved equal to the functions
    of `Paging` and `Output`.
  - The body of `paginateDocument` is split into methods, one per loop
    level: `PaginateLines` is the line loop, `PaginateLine` one input line,
    `PaginateWord` one word, `PlaceWord` the line-fill branches, `NextPage`
    the page break and `FinishDocument` the final page. Together they run
    the same statements in the same order as the single Go function.

The limits are parameters `maxChars` and `maxLines` throughout.
`Paginator.PaginateWithDefaults` fixes them to the source's 80 and 25.
A Dafny `string` stands for a Go string of single-byte characters, so
`|s|` is Go's `len(s)`.

### Where the design description and the code differ

The program's design description differs from `test.go` in several
places. The model follows `test.go` in each case.

- The description has words flow across input lines and the trailing
  partial line flushed at the end. In the code, `currentLine` is reset for
  every input line (test.go:84) and never flushed. The words left in it
  when an input line ends are lost (`Paging.DocumentLines`,
  `Paging.InputLineContribution`).
- The description says a single 200-character word gives one page holding
  that word. In the code, it gives no page at all (`Paging.OneWordInput`).
  The same holds for 25 one-letter words written on one line.
- The description says every line is at most the limit long, except a
  single oversized word kept as is. In the code:
  - a line can run past the limit (`Wrap.ToleranceExceedsLimit`);
  - an oversized word placed in an empty buffer gets a leading space
    (`Wrap.OversizedWordGetsLeadingSpace`);
  - every line written is at least `maxChars - 1` long
    (`Paging.LinesNearlyFull`).
- The description says the last page has at most `MaxLinesPerPage`
  lines. In the code, one word can seal two lines at once and step over
  the `lineCount == MaxLinesPerPage` test. From then on no page is added
  (`Paging.PastLimitNeverBreaksAcrossLines`). The last page can hold
  `maxLines + 1` lines, or more (`Paging.LastPageCanOverflow`).

## Model

| member | source | states |
|---|---|---|
| Text.Fields | test.go:83 | every field `strings.Fields` returns is a word: non-empty and free of whitespace |
| Text.FieldsEmptyIff | test.go:83 | a line yields no words exactly when it is all whitespace |
| Text.FieldsOfJoin | test.go:83 | splitting words joined with single spaces gives the same words back |
| Text.JoinHasNoLineFeed | test.go:107-111 | words joined with spaces contain no line feed |
| Text.DecimalRoundTrip | test.go:51 | the `%d` rendering of any integer is well formed, holds no line feed, and parses back to the integer |
| Wrap.Place | test.go:89-113 | placing a word seals at most one line; that line is the old buffer, which was non-empty and at least `maxChars - 1` long; the word ends the new buffer |
| Wrap.Step | test.go:89-120 | a word seals at most two lines, each at least `maxChars - 1` long; when the buffer ends empty, the last sealed line is exactly `maxChars` long; the buffer is never left exactly full |
| Wrap.WrapWords | test.go:86-120 | every line the word loop of one input line seals is at least `maxChars - 1` long |
| Wrap.OversizedWordGetsLeadingSpace | test.go:90-103 | with a limit of at least 2, the arm at test.go:100-103 is never taken; an oversized word placed in an empty buffer becomes a space followed by the word, and nothing is sealed |
| Wrap.ToleranceExceedsLimit | test.go:90-93 | a buffer of 1 to `maxChars - 2` characters takes the next word even when the result is longer than the limit |
| Wrap.TwoLinesFromOneWord | test.go:94-120 | a buffer one short of the limit followed by a word exactly as long as the limit seals both, leaving the buffer empty |
| Wrap.WrapWordsMirrored | test.go:86-120 | the lines an input line seals are its words in order, unsplit, in consecutive non-empty groups joined by single spaces, each optionally led by one space; the words after the last group remain in the buffer |
| Paging.Finish | test.go:133-136 | the finished document holds the pages added in the loop, then the page in progress, numbered next, when it has a line |
| Paging.ProcessWordSound | test.go:87-127 | one word iteration keeps the loop invariant: pages numbered 1, 2, ... in order, every page added has exactly `maxLines` lines, every line is at least `maxChars - 1` long |
| Paging.ProcessLinesSound | test.go:79-131 | the whole line loop keeps that invariant |
| Paging.FinishShape | test.go:133-136 | a document finished from that invariant is numbered from 1, has full pages except the last, has long lines, and has no empty page when `maxLines >= 1` |
| Paging.PageNumbersContiguous | test.go:74-136 | page numbers run 1, 2, ..., P in document order |
| Paging.FullPagesExceptLast | test.go:123-127 | every page except the last has exactly `maxLines` lines |
| Paging.NoEmptyPage | test.go:123-136 | with `maxLines >= 1`, no page of the document is empty |
| Paging.LinesNearlyFull | test.go:90-120 | every line of the document is at least `maxChars - 1` long |
| Paging.DocumentLines | test.go:79-136 | read page after page, the document's lines are exactly the lines each input line seals on its own, in input order; page breaks add, drop and reorder nothing |
| Paging.InputLineContribution | test.go:83-120 | from an empty buffer, an input line's sealed lines are groups of its words as in `Wrap.WrapWordsMirrored`; the words left in the buffer are the rest |
| Paging.NoPagesIffNothingSealed | test.go:84-136 | with `maxLines >= 1`, the document has no page exactly when no input line seals a line on its own |
| Paging.BlankInputHasNoPages | test.go:79-136 | empty input, or input of whitespace-only lines, gives no page |
| Paging.OneLineInput | test.go:74-138 | a one-line input gives the document finished from the word loop over that line's fields |
| Paging.OneWordInput | test.go:84-136 | with `maxChars >= 2` and `maxLines >= 1`, an input of a single one-word line gives no page, whatever the word's length |
| Paging.PastLimitNeverBreaks | test.go:123-127 | once the page in progress has more than `maxLines` lines, further words add no page, and the page in progress only grows |
| Paging.PastLimitNeverBreaksAcrossLines | test.go:79-131 | the same holds across any further input lines |
| Paging.ShortWordsFillOneLineEach | test.go:94-99 | k words (1 <= k <= `maxLines`) each one short of the limit, from the start, add no page, leave k - 1 sealed lines on the page and the last word in the buffer |
| Paging.LastPageCanOverflow | test.go:94-136 | for every `maxChars >= 2` and `maxLines >= 1`, some one-line input gives a single page of `maxLines + 1` lines |
| Output.RenderAppend | test.go:50-58 | rendering two documents one after the other gives the concatenation of their renderings |
| Output.RenderEmptyIff | test.go:50-58 | the output is empty exactly when the document has no page |
| Output.HeaderIsOneLine | test.go:51 | the page header is exactly one text line |
| Output.RenderLinesCount | test.go:54-56 | lines without line feeds are written as exactly that many text lines |
| Output.RenderRows | test.go:50-58 | a document whose lines hold no line feed is written as one text line per header, per page line and per separator |
| Output.PaginatedRows | test.go:49-58 | every paginated document is written as exactly one text line per header, per page line and per separator |
| Paginator.Page.constructor | test.go:75 | a new page has the given number and no lines |
| Paginator.Document.constructor | test.go:74 | a new document has no pages |
| Paginator.Document.AddPage | test.go:33-35 | the page is appended after the existing pages, and the document's value gains that page at the end |
| Paginator.Document.SaveToFile | test.go:49-58 | the text written is exactly `Render` of the document's pages |
| Paginator.WriteLines | test.go:54-56 | the text written for a page's lines is exactly `RenderLines` of them |
| Paginator.PlaceWord | test.go:87-120 | the page gains exactly the lines `Step` seals; the new buffer is `Step`'s buffer; the line count stays equal to the page's length |
| Paginator.PaginateWord | test.go:87-127 | one word iteration changes the document, the page in progress and the buffer exactly as `ProcessWord` does |
| Paginator.NextPage | test.go:123-127 | the full page is added to the document, and a fresh empty page numbered after it is returned |
| Paginator.PaginateLine | test.go:80-129 | one input line changes the document and the page in progress exactly as `ProcessLine` does |
| Paginator.PaginateLines | test.go:74-131 | the line loop leaves the document and the page in progress exactly as `ProcessLines` describes |
| Paginator.FinishDocument | test.go:133-136 | the last page is added only when it has a line, exactly as `Finish` does |
| Paginator.PaginateDocument | test.go:74-138 | the returned document is fresh, and its pages as values are exactly `Paginate` of the input lines |
| Paginator.PaginateWithDefaults | test.go:10-13 | with limits 80 and 25, the document's pages are exactly `Paginate(input, 80, 25)` |

## Left out

- Opening and creating files (test.go:40-45, 67-72) and their error returns are not modelled. The input lines and the output text are parameters and results instead.
- `bufio.Scanner` (test.go:77-80) is not modelled: its line splitting, its 64 KiB token limit and its never-checked `Err`. The input is given as its sequence of lines.
- `strings.TrimRight(line, "\n")` (test.go:81) is left out. The scanner has already removed the line terminator, so the call changes nothing.
- `bufio.Writer` (test.go:47, 60) is not modelled. `SaveToFile` returns the text it would write; buffering, the ignored write and flush errors and `file.Close` are left out.
- `main` (test.go:144-159) is not modelled: it only wires fixed file names to the two functions and prints messages.
- Unicode is not modelled. A character is one byte, and whitespace is ASCII space and characters 9 to 13. The multi-byte UTF-8 spaces that `strings.Fields` also splits on (such as U+00A0 and U+2003) are treated as word characters.
- Overflow of Go's `int` in page numbers and line counts is not modelled, because no realistic input reaches it.
