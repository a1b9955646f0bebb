/**
 * The text SaveToFile writes (test.go:49-58): for each page in order a
 * header line "--- Page N --- " (with the space before the line feed),
 * each line of the page followed by a line feed, then an empty line.
 */
module Output {
  import opened Seqs
  import opened Text
  import opened Wrap
  import opened Paging

  /** The header written by `fmt.Fprintf(writer, "--- Page %d --- \n", n)`. */
  function Header(number: int): string {
    "--- Page " + Decimal(number) + " --- \n"
  }

  /** `fmt.Fprintln(writer, line)` for each line: the line, then a line feed. */
  function RenderLines(ls: seq<string>): string {
    if ls == [] then "" else RenderLines(ls[..|ls| - 1]) + ls[|ls| - 1] + "\n"
  }

  /** One page: its header, its lines, and the empty line `Fprintln("")` writes. */
  function RenderPage(p: PageValue): string {
    Header(p.number) + RenderLines(p.lines) + "\n"
  }

  /** The whole document, page after page. */
  function Render(pages: seq<PageValue>): string {
    if pages == [] then "" else Render(pages[..|pages| - 1]) + RenderPage(pages[|pages| - 1])
  }

  /** Writing one more line of a page extends the written text by that
      line and its line feed. */
  lemma RenderLinesPrefix(ls: seq<string>, j: int)
    requires 0 <= j < |ls|
    ensures RenderLines(ls[..j + 1]) == RenderLines(ls[..j]) + (ls[j] + "\n")
  {
    assert ls[..j + 1][..j] == ls[..j];
  }

  /** Writing one more page extends the written text by that page's block. */
  lemma RenderPrefix(pages: seq<PageValue>, i: int)
    requires 0 <= i < |pages|
    ensures Render(pages[..i + 1]) == Render(pages[..i]) + RenderPage(pages[i])
  {
    assert pages[..i + 1][..i] == pages[..i];
  }

  /** Rendering distributes over concatenation of documents, so each page
      block is written independently of its neighbours. */
  lemma {:induction false} RenderAppend(a: seq<PageValue>, b: seq<PageValue>)
    ensures Render(a + b) == Render(a) + Render(b)
    decreases |b|
  {
    if b == [] {
      assert a + b == a;
    } else {
      var init := b[..|b| - 1];
      assert (a + b)[..|a + b| - 1] == a + init;
      assert (a + b)[|a + b| - 1] == b[|b| - 1];
      RenderAppend(a, init);
      AppendAssoc(Render(a), Render(init), RenderPage(b[|b| - 1]));
    }
  }

  /** The output is empty exactly when the document has no page: every
      page block starts with its header. */
  lemma RenderEmptyIff(pages: seq<PageValue>)
    ensures Render(pages) == "" <==> pages == []
  {
    if pages != [] {
      var last := pages[|pages| - 1];
      assert |Header(last.number)| > 0;
      assert |RenderPage(last)| > 0;
    }
  }

  // Counting the lines of the output.

  function CountLineFeeds(s: string): nat {
    if s == [] then 0 else CountLineFeeds(s[..|s| - 1]) + (if s[|s| - 1] == '\n' then 1 else 0)
  }

  lemma {:induction false} CountAppend(a: string, b: string)
    ensures CountLineFeeds(a + b) == CountLineFeeds(a) + CountLineFeeds(b)
    decreases |b|
  {
    if b == [] {
      assert a + b == a;
    } else {
      assert (a + b)[..|a + b| - 1] == a + b[..|b| - 1];
      CountAppend(a, b[..|b| - 1]);
    }
  }

  predicate NoLineFeed(s: string) {
    forall i :: 0 <= i < |s| ==> s[i] != '\n'
  }

  lemma {:induction false} CountNone(s: string)
    requires NoLineFeed(s)
    ensures CountLineFeeds(s) == 0
    decreases |s|
  {
    if s != [] {
      CountNone(s[..|s| - 1]);
    }
  }

  lemma HeaderIsOneLine(number: int)
    ensures CountLineFeeds(Header(number)) == 1
  {
    DecimalRoundTrip(number);
    var prefix := "--- Page " + Decimal(number) + " --- ";
    assert NoLineFeed(prefix);
    CountNone(prefix);
    CountAppend(prefix, "\n");
    assert Header(number) == prefix + "\n";
  }

  lemma {:induction false} RenderLinesCount(ls: seq<string>)
    requires forall j :: 0 <= j < |ls| ==> NoLineFeed(ls[j])
    ensures CountLineFeeds(RenderLines(ls)) == |ls|
    decreases |ls|
  {
    if ls != [] {
      var init := ls[..|ls| - 1];
      var last := ls[|ls| - 1];
      RenderLinesCount(init);
      CountNone(last);
      CountAppend(RenderLines(init), last);
      CountAppend(RenderLines(init) + last, "\n");
    }
  }

  /** The number of output lines a document takes: per page a header, its
      lines and the empty separator line. */
  function Rows(pages: seq<PageValue>): nat {
    if pages == [] then 0 else Rows(pages[..|pages| - 1]) + |pages[|pages| - 1].lines| + 2
  }

  predicate LinesWithoutLineFeed(pages: seq<PageValue>) {
    forall i, j :: 0 <= i < |pages| && 0 <= j < |pages[i].lines| ==> NoLineFeed(pages[i].lines[j])
  }

  /** When no line of the document holds a line feed, the output has
      exactly one text line per header, per page line and per separator. */
  lemma {:induction false} RenderRows(pages: seq<PageValue>)
    requires LinesWithoutLineFeed(pages)
    ensures CountLineFeeds(Render(pages)) == Rows(pages)
    decreases |pages|
  {
    if pages != [] {
      var init := pages[..|pages| - 1];
      var last := pages[|pages| - 1];
      assert LinesWithoutLineFeed(init);
      RenderRows(init);
      HeaderIsOneLine(last.number);
      RenderLinesCount(last.lines);
      CountAppend(Header(last.number), RenderLines(last.lines));
      CountAppend(Header(last.number) + RenderLines(last.lines), "\n");
      CountAppend(Render(init), RenderPage(last));
    }
  }

  // No page line holds a line feed, so the rendered document has exactly
  // Rows lines.

  lemma NoLineFeedJoin(a: string, b: string)
    requires NoLineFeed(a) && NoLineFeed(b)
    ensures NoLineFeed(a + " " + b)
  {
    var s := a + " " + b;
    forall i | 0 <= i < |s| ensures s[i] != '\n' {
      if i < |a| { assert s[i] == a[i]; }
      else if i > |a| { assert s[i] == b[i - |a| - 1]; }
    }
  }

  predicate AllNoLineFeed(ls: seq<string>) {
    forall j :: 0 <= j < |ls| ==> NoLineFeed(ls[j])
  }

  lemma AllNoLineFeedAppend(a: seq<string>, b: seq<string>)
    requires AllNoLineFeed(a) && AllNoLineFeed(b)
    ensures AllNoLineFeed(a + b)
  {
    forall j | 0 <= j < |a + b| ensures NoLineFeed((a + b)[j]) {
      if j >= |a| { assert (a + b)[j] == b[j - |a|]; }
    }
  }

  lemma NoLineFeedLead(word: string)
    requires NoLineFeed(word)
    ensures NoLineFeed(" " + word)
  {
    forall i | 0 <= i < |" " + word| ensures (" " + word)[i] != '\n' {
      if i > 0 { assert (" " + word)[i] == word[i - 1]; }
    }
  }

  lemma PlaceNoLineFeed(buf: string, word: string, maxChars: int)
    requires NoLineFeed(buf) && NoLineFeed(word)
    ensures var p := Place(buf, word, maxChars);
            NoLineFeed(p.buf) && AllNoLineFeed(p.sealed)
  {
    match PlaceBranch(buf, word, maxChars)
    case Tolerate =>
      NoLineFeedJoin(buf, word);
      if buf == "" {
        assert buf + " " + word == " " + word;
      }
    case FlushAndStart =>
      assert Place(buf, word, maxChars) == Placed([buf], word);
    case StartOversized =>
    case Fit =>
      NoLineFeedJoin(buf, word);
  }

  lemma StepNoLineFeed(buf: string, word: string, maxChars: int)
    requires NoLineFeed(buf) && NoLineFeed(word)
    ensures var p := Step(buf, word, maxChars);
            NoLineFeed(p.buf) && AllNoLineFeed(p.sealed)
  {
    PlaceNoLineFeed(buf, word, maxChars);
    var q := Place(buf, word, maxChars);
    if |q.buf| == maxChars {
      AllNoLineFeedAppend(q.sealed, [q.buf]);
      assert Step(buf, word, maxChars) == Placed(q.sealed + [q.buf], "");
    } else {
      assert Step(buf, word, maxChars) == q;
    }
  }

  /** Every line stored so far, and the buffer, are free of line feeds. */
  predicate Clean(st: Progress) {
    LinesWithoutLineFeed(st.pages) && AllNoLineFeed(st.current) && NoLineFeed(st.buf)
  }

  lemma ProcessWordClean(st: Progress, word: string, maxChars: int, maxLines: int)
    requires Clean(st) && NoLineFeed(word)
    ensures Clean(ProcessWord(st, word, maxChars, maxLines))
  {
    var q := Step(st.buf, word, maxChars);
    StepNoLineFeed(st.buf, word, maxChars);
    var cur := st.current + q.sealed;
    AllNoLineFeedAppend(st.current, q.sealed);
    if |cur| == maxLines {
      var pages := st.pages + [PageValue(|st.pages| + 1, cur)];
      assert LinesWithoutLineFeed(pages) by {
        forall i, j | 0 <= i < |pages| && 0 <= j < |pages[i].lines| ensures NoLineFeed(pages[i].lines[j]) {
          if i < |st.pages| { assert pages[i] == st.pages[i]; }
        }
      }
      assert ProcessWord(st, word, maxChars, maxLines) == Progress(pages, [], q.buf);
    } else {
      assert ProcessWord(st, word, maxChars, maxLines) == Progress(st.pages, cur, q.buf);
    }
  }

  lemma {:induction false} ProcessWordsClean(st: Progress, ws: seq<string>, maxChars: int, maxLines: int)
    requires Clean(st) && AllWords(ws)
    ensures Clean(ProcessWords(st, ws, maxChars, maxLines))
    decreases |ws|
  {
    if ws != [] {
      var init, w := ws[..|ws| - 1], ws[|ws| - 1];
      assert AllWords(init) by {
        forall i | 0 <= i < |init| ensures IsWord(init[i]) { assert init[i] == ws[i]; }
      }
      ProcessWordsClean(st, init, maxChars, maxLines);
      assert IsWord(w);
      assert NoLineFeed(w) by {
        forall i | 0 <= i < |w| ensures w[i] != '\n' { assert !IsSpace(w[i]); }
      }
      ProcessWordClean(ProcessWords(st, init, maxChars, maxLines), w, maxChars, maxLines);
    }
  }

  lemma {:induction false} ProcessLinesClean(st: Progress, lines: seq<string>, maxChars: int, maxLines: int)
    requires Clean(st)
    ensures Clean(ProcessLines(st, lines, maxChars, maxLines))
    decreases |lines|
  {
    if lines != [] {
      ProcessLinesClean(st, lines[..|lines| - 1], maxChars, maxLines);
      var p := ProcessLines(st, lines[..|lines| - 1], maxChars, maxLines);
      assert Clean(p.(buf := ""));
      ProcessWordsClean(p.(buf := ""), Fields(lines[|lines| - 1]), maxChars, maxLines);
    }
  }

  lemma FinishClean(p: Progress)
    requires Clean(p)
    ensures LinesWithoutLineFeed(Finish(p))
  {
    var doc := Finish(p);
    if |p.current| > 0 {
      var last := PageValue(|p.pages| + 1, p.current);
      assert doc == p.pages + [last];
      forall i, j | 0 <= i < |doc| && 0 <= j < |doc[i].lines| ensures NoLineFeed(doc[i].lines[j]) {
        if i < |p.pages| { assert doc[i] == p.pages[i]; }
        else { assert doc[i] == last; }
      }
    } else {
      assert doc == p.pages;
    }
  }

  /** No line of a paginated document holds a line feed, so its rendering
      has exactly one text line per page header, per page line and per
      separator: the rendered lines correspond one to one to the pages'
      structure. */
  lemma PaginatedRows(lines: seq<string>, maxChars: int, maxLines: int)
    ensures var doc := Paginate(lines, maxChars, maxLines);
            CountLineFeeds(Render(doc)) == Rows(doc)
  {
    var p := ProcessLines(Start, lines, maxChars, maxLines);
    assert Clean(Start);
    ProcessLinesClean(Start, lines, maxChars, maxLines);
    FinishClean(p);
    RenderRows(Finish(p));
  }
}
