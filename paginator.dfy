/**
 * The objects of test.go: `Page` and `Document`, `Document.AddPage`,
 * `Document.SaveToFile` (the text it writes) and `paginateDocument`
 * (the loops, taking the input lines instead of a file name).
 *
 * Each method is proved against the functions of modules Paging and
 * Output, whose properties are proved there.
 */
module Paginator {
  import opened Seqs
  import opened Text
  import opened Wrap
  import opened Paging
  import opened Output

  /** The limits test.go fixes (test.go:10-13). */
  const MaxCharsPerLine: int := 80
  const MaxLinesPerPage: int := 25

  /** A page: its number and its lines, which paginateDocument appends to
      in place. */
  class Page {
    var number: int
    var lines: seq<string>

    constructor (number: int)
      ensures this.number == number && lines == []
    {
      this.number := number;
      lines := [];
    }

    ghost function Value(): PageValue
      reads this
    {
      PageValue(number, lines)
    }
  }

  /** The pages of `ps`, as values. */
  ghost function Values(ps: seq<Page>): (vs: seq<PageValue>)
    reads ps
    ensures |vs| == |ps|
  {
    if ps == [] then [] else Values(ps[..|ps| - 1]) + [ps[|ps| - 1].Value()]
  }

  lemma {:induction false} ValuesIndex(ps: seq<Page>, i: int)
    requires 0 <= i < |ps|
    ensures Values(ps)[i] == ps[i].Value()
    decreases |ps|
  {
    if i < |ps| - 1 {
      ValuesIndex(ps[..|ps| - 1], i);
    }
  }

  lemma ValuesSnoc(ps: seq<Page>, p: Page)
    ensures Values(ps + [p]) == Values(ps) + [p.Value()]
  {
    assert (ps + [p])[..|ps|] == ps;
  }

  /** A document: the pages added so far, in order. */
  class Document {
    var pages: seq<Page>

    constructor ()
      ensures pages == []
    {
      pages := [];
    }

    ghost function View(): seq<PageValue>
      reads this, pages
    {
      Values(pages)
    }

    /** Appends `page` after the pages already there (test.go:33-35). */
    method AddPage(page: Page)
      modifies this
      ensures pages == old(pages) + [page]
      ensures View() == old(View()) + [page.Value()]
    {
      ValuesSnoc(pages, page);
      pages := pages + [page];
    }

    /** The text SaveToFile writes to its file (test.go:49-58). */
    method SaveToFile() returns (text: string)
      ensures text == Render(View())
    {
      ghost var view := View();
      text := "";
      var i := 0;
      while i < |pages|
        invariant 0 <= i <= |pages|
        invariant text == Render(view[..i])
      {
        var page := pages[i];
        ValuesIndex(pages, i);
        var body := WriteLines(page.lines);
        AppendAssoc(Render(view[..i]), Header(page.number), body);
        AppendAssoc(Render(view[..i]), Header(page.number) + body, "\n");
        text := text + Header(page.number) + body + "\n";
        RenderPrefix(view, i);
        i := i + 1;
      }
      assert view[..i] == view;
    }
  }

  /** The inner loop of SaveToFile (test.go:53-55): each line of a page
      followed by a line feed. */
  method WriteLines(lines: seq<string>) returns (text: string)
    ensures text == RenderLines(lines)
  {
    text := "";
    var j := 0;
    while j < |lines|
      invariant 0 <= j <= |lines|
      invariant text == RenderLines(lines[..j])
    {
      RenderLinesPrefix(lines, j);
      text := text + (lines[j] + "\n");
      j := j + 1;
    }
    assert lines[..j] == lines;
  }

  /** The body of paginateDocument's word loop up to the page check
      (test.go:87-120): places `word` after the buffer `line`, appending to
      `page` the lines that are sealed, and returns the new buffer and the
      new line count. What it does is exactly Step. */
  method PlaceWord(page: Page, line: string, word: string, maxChars: int, lineCount: int)
    returns (currentLine: string, count: int)
    requires lineCount == |page.lines|
    modifies page
    ensures page.number == old(page.number)
    ensures page.lines == old(page.lines) + Step(line, word, maxChars).sealed
    ensures currentLine == Step(line, word, maxChars).buf
    ensures count == |page.lines|
  {
    currentLine := line;
    count := lineCount;
    var wordLength := |word|;
    if |currentLine| + wordLength + 1 > maxChars {
      if |currentLine| + 1 < maxChars {
        // The tolerance branch: the line may run one character past the limit.
        currentLine := currentLine + " " + word;
      } else {
        if currentLine != "" {
          page.lines := page.lines + [currentLine];
          count := count + 1;
          currentLine := word;
        } else {
          currentLine := word;
        }
      }
    } else {
      if currentLine == "" {
        currentLine := word;
      } else {
        currentLine := currentLine + " " + word;
      }
    }
    assert page.lines == old(page.lines) + Place(line, word, maxChars).sealed;
    if |currentLine| == maxChars {
      page.lines := page.lines + [currentLine];
      count := count + 1;
      currentLine := "";
    }
  }

  /** The body of paginateDocument's word loop (test.go:87-127): places
      `word` with PlaceWord, then, when the page has `maxLines` lines, adds
      it to `doc` and starts a fresh page numbered after it. It returns the
      page in progress, its line count and the new buffer. What it does is
      exactly ProcessWord. */
  method PaginateWord(doc: Document, page: Page, lineCount: int, line: string, word: string, maxChars: int, maxLines: int)
    returns (current: Page, count: int, currentLine: string)
    requires page !in doc.pages
    requires lineCount == |page.lines|
    requires page.number == |doc.pages| + 1
    modifies doc, page
    ensures current == page || fresh(current)
    ensures current !in doc.pages
    ensures count == |current.lines|
    ensures current.number == |doc.pages| + 1
    ensures ProcessWord(Progress(old(doc.View()), old(page.lines), line), word, maxChars, maxLines)
         == Progress(doc.View(), current.lines, currentLine)
  {
    ghost var st := Progress(doc.View(), page.lines, line);
    ghost var q := Step(line, word, maxChars);
    ghost var next := ProcessWord(st, word, maxChars, maxLines);
    current := page;
    currentLine, count := PlaceWord(current, line, word, maxChars, lineCount);
    assert current.lines == st.current + q.sealed && currentLine == q.buf;
    assert doc.View() == st.pages;
    if count == maxLines {
      assert next == Progress(st.pages + [current.Value()], [], currentLine);
      current := NextPage(doc, current);
      count := 0;
      assert next == Progress(doc.View(), current.lines, currentLine);
    } else {
      assert next == Progress(doc.View(), current.lines, currentLine);
    }
  }

  /** A full page (test.go:123-127): `page` is added to `doc` and a fresh,
      empty page numbered after it is returned. */
  method NextPage(doc: Document, page: Page) returns (next: Page)
    modifies doc
    ensures doc.View() == old(doc.View()) + [page.Value()]
    ensures doc.pages == old(doc.pages) + [page]
    ensures fresh(next) && next !in doc.pages
    ensures next.lines == [] && next.number == |doc.pages| + 1
  {
    doc.AddPage(page);
    next := new Page(|doc.pages| + 1);
  }

  /** The body of paginateDocument's line loop (test.go:83-129): splits
      `line` into words and runs the word loop from an empty buffer,
      appending lines to `page` and full pages to `doc`. It returns the page
      in progress afterwards (`page` itself or a fresh one) and its line
      count. What it does is exactly ProcessLine; the buffer it leaves is
      dropped, as test.go drops it. */
  method PaginateLine(doc: Document, page: Page, lineCount: int, line: string, maxChars: int, maxLines: int)
    returns (current: Page, count: int)
    requires page !in doc.pages
    requires lineCount == |page.lines|
    requires page.number == |doc.pages| + 1
    modifies doc, page
    ensures current == page || fresh(current)
    ensures current !in doc.pages
    ensures count == |current.lines|
    ensures current.number == |doc.pages| + 1
    ensures var p := ProcessLine(Progress(old(doc.View()), old(page.lines), ""), line, maxChars, maxLines);
      p.pages == doc.View() && p.current == current.lines
  {
    var words := Fields(line);
    var currentLine := "";
    current, count := page, lineCount;
    ghost var st0 := Progress(doc.View(), page.lines, "");
    ghost var st := st0;
    var i := 0;
    while i < |words|
      invariant 0 <= i <= |words|
      invariant current == page || fresh(current)
      invariant current !in doc.pages
      invariant count == |current.lines|
      invariant current.number == |doc.pages| + 1
      invariant st == ProcessWords(st0, words[..i], maxChars, maxLines)
      invariant st == Progress(doc.View(), current.lines, currentLine)
    {
      ProcessWordsPrefix(st0, words, i, maxChars, maxLines);
      current, count, currentLine := PaginateWord(doc, current, count, currentLine, words[i], maxChars, maxLines);
      st := ProcessWord(st, words[i], maxChars, maxLines);
      i := i + 1;
    }
    assert words[..|words|] == words;
  }

  /** paginateDocument on the lines of its input file (test.go:74-138):
      the document it returns holds, as values, exactly the pages
      Paginate describes. */
  method PaginateDocument(input: seq<string>, maxChars: int, maxLines: int) returns (doc: Document)
    ensures fresh(doc)
    ensures doc.View() == Paginate(input, maxChars, maxLines)
  {
    doc := new Document();
    var page := new Page(1);
    page := PaginateLines(doc, page, input, maxChars, maxLines);
    FinishDocument(doc, page);
  }

  /** The line loop of paginateDocument (test.go:79-131), from an empty
      document and an empty first page: it returns the page in progress
      afterwards. What it does is exactly ProcessLines. */
  method PaginateLines(doc: Document, first: Page, input: seq<string>, maxChars: int, maxLines: int)
    returns (page: Page)
    requires doc.pages == [] && first.lines == [] && first.number == 1
    modifies doc, first
    ensures page == first || fresh(page)
    ensures page !in doc.pages
    ensures page.number == |doc.pages| + 1
    ensures var p := ProcessLines(Start, input, maxChars, maxLines);
      p.pages == doc.View() && p.current == page.lines
  {
    page := first;
    var lineCount := 0;
    ghost var done := Start;
    var k := 0;
    while k < |input|
      invariant 0 <= k <= |input|
      invariant page == first || fresh(page)
      invariant page !in doc.pages
      invariant lineCount == |page.lines|
      invariant page.number == |doc.pages| + 1
      invariant done == ProcessLines(Start, input[..k], maxChars, maxLines)
      invariant done.pages == doc.View() && done.current == page.lines
    {
      ProcessLinesPrefix(Start, input, k, maxChars, maxLines);
      page, lineCount := PaginateLine(doc, page, lineCount, input[k], maxChars, maxLines);
      done := ProcessLine(done, input[k], maxChars, maxLines);
      k := k + 1;
    }
    assert input[..k] == input;
  }

  /** The end of paginateDocument (test.go:133-136): the page in progress
      is added only when it has a line. What it does is exactly Finish. */
  method FinishDocument(doc: Document, page: Page)
    requires page !in doc.pages
    requires page.number == |doc.pages| + 1
    modifies doc
    ensures doc.View() == Finish(Progress(old(doc.View()), page.lines, ""))
  {
    ghost var done := Progress(doc.View(), page.lines, "");
    if |page.lines| > 0 {
      assert Finish(done) == done.pages + [page.Value()];
      doc.AddPage(page);
    } else {
      assert Finish(done) == done.pages;
    }
  }

  /** paginateDocument with the limits test.go fixes. */
  method PaginateWithDefaults(input: seq<string>) returns (doc: Document)
    ensures fresh(doc)
    ensures doc.View() == Paginate(input, MaxCharsPerLine, MaxLinesPerPage)
  {
    doc := PaginateDocument(input, MaxCharsPerLine, MaxLinesPerPage);
  }
}
