/**
 * The page-breaking half of paginateDocument (test.go:74-138) as functions
 * of the input: after every word the page in progress is added to the
 * document when its line count equals the page limit, and at the end of
 * the input it is added if it has any line. The line buffer is reset at
 * the start of every input line and never flushed, so whatever it holds
 * when an input line ends is lost.
 */
module Paging {
  import opened Seqs
  import opened Text
  import opened Wrap

  /** A page as a value: its number and its lines. */
  datatype PageValue = PageValue(number: int, lines: seq<string>)

  /** The state of paginateDocument between two words: the pages already
      added to the document, the lines of the page in progress (whose
      number is always one more than the number of pages added) and the
      line buffer. */
  datatype Progress = Progress(pages: seq<PageValue>, current: seq<string>, buf: string)

  const Start := Progress([], [], "")

  /** One iteration of the word loop (test.go:87-127). */
  function ProcessWord(st: Progress, word: string, maxChars: int, maxLines: int): Progress {
    var q := Step(st.buf, word, maxChars);
    var cur := st.current + q.sealed;
    if |cur| == maxLines then Progress(st.pages + [PageValue(|st.pages| + 1, cur)], [], q.buf)
    else Progress(st.pages, cur, q.buf)
  }

  /** The word loop over `ws` (test.go:86-129). */
  function ProcessWords(st: Progress, ws: seq<string>, maxChars: int, maxLines: int): Progress {
    if ws == [] then st
    else ProcessWord(ProcessWords(st, ws[..|ws| - 1], maxChars, maxLines), ws[|ws| - 1], maxChars, maxLines)
  }

  /** The word loop over one more word of `ws` is one more ProcessWord. */
  lemma ProcessWordsPrefix(st: Progress, ws: seq<string>, i: int, maxChars: int, maxLines: int)
    requires 0 <= i < |ws|
    ensures ProcessWords(st, ws[..i + 1], maxChars, maxLines)
         == ProcessWord(ProcessWords(st, ws[..i], maxChars, maxLines), ws[i], maxChars, maxLines)
  {
    assert ws[..i + 1][..i] == ws[..i];
  }

  /** One input line (test.go:80-129): split it into words and run the
      word loop from an empty buffer. */
  function ProcessLine(st: Progress, line: string, maxChars: int, maxLines: int): Progress {
    ProcessWords(st.(buf := ""), Fields(line), maxChars, maxLines)
  }

  /** The line loop over the whole input (test.go:79-131). */
  function ProcessLines(st: Progress, lines: seq<string>, maxChars: int, maxLines: int): Progress {
    if lines == [] then st
    else ProcessLine(ProcessLines(st, lines[..|lines| - 1], maxChars, maxLines), lines[|lines| - 1], maxChars, maxLines)
  }

  /** The line loop over one more line of `lines` is one more ProcessLine. */
  lemma ProcessLinesPrefix(st: Progress, lines: seq<string>, k: int, maxChars: int, maxLines: int)
    requires 0 <= k < |lines|
    ensures ProcessLines(st, lines[..k + 1], maxChars, maxLines)
         == ProcessLine(ProcessLines(st, lines[..k], maxChars, maxLines), lines[k], maxChars, maxLines)
  {
    assert lines[..k + 1][..k] == lines[..k];
  }

  /** After the loop: the page in progress is added if it has a line
      (test.go:133-136). */
  function Finish(p: Progress): (doc: seq<PageValue>)
    ensures |doc| == |p.pages| + (if |p.current| > 0 then 1 else 0)
    ensures forall i :: 0 <= i < |p.pages| ==> doc[i] == p.pages[i]
    ensures |p.current| > 0 ==> doc[|p.pages|] == PageValue(|p.pages| + 1, p.current)
  {
    if |p.current| > 0 then p.pages + [PageValue(|p.pages| + 1, p.current)] else p.pages
  }

  /** The pages paginateDocument produces for the input lines: the loop,
      then the page in progress if it has a line (test.go:74-138). */
  function Paginate(lines: seq<string>, maxChars: int, maxLines: int): seq<PageValue> {
    Finish(ProcessLines(Start, lines, maxChars, maxLines))
  }

  // The shape of the document.

  predicate LongLines(ls: seq<string>, maxChars: int) {
    forall j :: 0 <= j < |ls| ==> |ls[j]| >= maxChars - 1
  }

  /** What holds between words: pages are numbered from 1 in order, every
      page added so far has exactly `maxLines` lines, and every line is at
      least `maxChars - 1` long. */
  ghost predicate Sound(st: Progress, maxChars: int, maxLines: int) {
    SoundPages(st.pages, maxChars, maxLines) && LongLines(st.current, maxChars)
  }

  ghost predicate SoundPages(pages: seq<PageValue>, maxChars: int, maxLines: int) {
    && (forall i :: 0 <= i < |pages| ==> pages[i].number == i + 1)
    && (forall i :: 0 <= i < |pages| ==> |pages[i].lines| == maxLines)
    && (forall i :: 0 <= i < |pages| ==> LongLines(pages[i].lines, maxChars))
  }

  lemma ProcessWordSound(st: Progress, word: string, maxChars: int, maxLines: int)
    requires Sound(st, maxChars, maxLines)
    ensures Sound(ProcessWord(st, word, maxChars, maxLines), maxChars, maxLines)
  {
    var q := Step(st.buf, word, maxChars);
    var cur := st.current + q.sealed;
    assert LongLines(q.sealed, maxChars);
    LongLinesAppend(st.current, q.sealed, maxChars);
    if |cur| == maxLines {
      FullPageSound(st.pages, cur, maxChars, maxLines);
      assert ProcessWord(st, word, maxChars, maxLines) == Progress(st.pages + [PageValue(|st.pages| + 1, cur)], [], q.buf);
    } else {
      assert ProcessWord(st, word, maxChars, maxLines) == Progress(st.pages, cur, q.buf);
    }
  }

  lemma LongLinesAppend(a: seq<string>, b: seq<string>, maxChars: int)
    requires LongLines(a, maxChars) && LongLines(b, maxChars)
    ensures LongLines(a + b, maxChars)
  {
    forall j | 0 <= j < |a + b| ensures |(a + b)[j]| >= maxChars - 1 {
      if j >= |a| { assert (a + b)[j] == b[j - |a|]; }
    }
  }

  /** Adding a full page of long lines, numbered after the others, keeps
      the pages sound. */
  lemma FullPageSound(pages: seq<PageValue>, lines: seq<string>, maxChars: int, maxLines: int)
    requires SoundPages(pages, maxChars, maxLines)
    requires |lines| == maxLines && LongLines(lines, maxChars)
    ensures SoundPages(pages + [PageValue(|pages| + 1, lines)], maxChars, maxLines)
  {
    var ps := pages + [PageValue(|pages| + 1, lines)];
    forall i | 0 <= i < |ps|
      ensures ps[i].number == i + 1 && |ps[i].lines| == maxLines && LongLines(ps[i].lines, maxChars)
    {
      if i < |pages| { assert ps[i] == pages[i]; }
    }
  }

  lemma {:induction false} ProcessWordsSound(st: Progress, ws: seq<string>, maxChars: int, maxLines: int)
    requires Sound(st, maxChars, maxLines)
    ensures Sound(ProcessWords(st, ws, maxChars, maxLines), maxChars, maxLines)
    decreases |ws|
  {
    if ws != [] {
      ProcessWordsSound(st, ws[..|ws| - 1], maxChars, maxLines);
      ProcessWordSound(ProcessWords(st, ws[..|ws| - 1], maxChars, maxLines), ws[|ws| - 1], maxChars, maxLines);
    }
  }

  lemma {:induction false} ProcessLinesSound(st: Progress, lines: seq<string>, maxChars: int, maxLines: int)
    requires Sound(st, maxChars, maxLines)
    ensures Sound(ProcessLines(st, lines, maxChars, maxLines), maxChars, maxLines)
    decreases |lines|
  {
    if lines != [] {
      ProcessLinesSound(st, lines[..|lines| - 1], maxChars, maxLines);
      var p := ProcessLines(st, lines[..|lines| - 1], maxChars, maxLines);
      ProcessWordsSound(p.(buf := ""), Fields(lines[|lines| - 1]), maxChars, maxLines);
    }
  }

  /** The document built from a sound state: numbered from 1, full pages
      but the last, long lines; and, for a positive limit, no empty page. */
  lemma FinishShape(p: Progress, maxChars: int, maxLines: int)
    requires Sound(p, maxChars, maxLines)
    ensures var doc := Finish(p);
            && (forall i :: 0 <= i < |doc| ==> doc[i].number == i + 1)
            && (forall i :: 0 <= i < |doc| - 1 ==> |doc[i].lines| == maxLines)
            && (forall i :: 0 <= i < |doc| ==> LongLines(doc[i].lines, maxChars))
            && (maxLines >= 1 ==> forall i :: 0 <= i < |doc| ==> |doc[i].lines| >= 1)
  {
  }

  /** Page numbers run 1, 2, ..., P in document order with no gap. */
  lemma PageNumbersContiguous(lines: seq<string>, maxChars: int, maxLines: int)
    ensures var doc := Paginate(lines, maxChars, maxLines);
            forall i :: 0 <= i < |doc| ==> doc[i].number == i + 1
  {
    ProcessLinesSound(Start, lines, maxChars, maxLines);
    FinishShape(ProcessLines(Start, lines, maxChars, maxLines), maxChars, maxLines);
  }

  /** Every page but the last has exactly `maxLines` lines: a page is
      added inside the loop only when its line count equals the limit. */
  lemma FullPagesExceptLast(lines: seq<string>, maxChars: int, maxLines: int)
    ensures var doc := Paginate(lines, maxChars, maxLines);
            forall i :: 0 <= i < |doc| - 1 ==> |doc[i].lines| == maxLines
  {
    ProcessLinesSound(Start, lines, maxChars, maxLines);
    FinishShape(ProcessLines(Start, lines, maxChars, maxLines), maxChars, maxLines);
  }

  /** No page is empty: pages added in the loop hold `maxLines >= 1` lines
      and the last page is added only when it has a line. */
  lemma NoEmptyPage(lines: seq<string>, maxChars: int, maxLines: int)
    requires maxLines >= 1
    ensures var doc := Paginate(lines, maxChars, maxLines);
            forall i :: 0 <= i < |doc| ==> |doc[i].lines| >= 1
  {
    ProcessLinesSound(Start, lines, maxChars, maxLines);
    FinishShape(ProcessLines(Start, lines, maxChars, maxLines), maxChars, maxLines);
  }

  /** Every line of the document is at least `maxChars - 1` long: a line is
      committed either because it is exactly full or, one word too late,
      when it is at most one character short. */
  lemma LinesNearlyFull(lines: seq<string>, maxChars: int, maxLines: int)
    ensures var doc := Paginate(lines, maxChars, maxLines);
            forall i :: 0 <= i < |doc| ==> LongLines(doc[i].lines, maxChars)
  {
    ProcessLinesSound(Start, lines, maxChars, maxLines);
    FinishShape(ProcessLines(Start, lines, maxChars, maxLines), maxChars, maxLines);
  }

  // Which lines reach the document.

  /** All lines of the pages, in page order. */
  function AllLines(pages: seq<PageValue>): seq<string> {
    if pages == [] then [] else AllLines(pages[..|pages| - 1]) + pages[|pages| - 1].lines
  }

  /** The lines each input line seals on its own, from an empty buffer,
      concatenated in input order. */
  function SealedLines(lines: seq<string>, maxChars: int): seq<string> {
    if lines == [] then []
    else SealedLines(lines[..|lines| - 1], maxChars) + WrapWords("", Fields(lines[|lines| - 1]), maxChars).sealed
  }

  /** The lines so far: those of the pages added, then those of the page
      in progress. */
  function Written(st: Progress): seq<string> {
    AllLines(st.pages) + st.current
  }

  lemma ProcessWordWrites(st: Progress, word: string, maxChars: int, maxLines: int)
    ensures var r := ProcessWord(st, word, maxChars, maxLines);
            var q := Step(st.buf, word, maxChars);
            Written(r) == Written(st) + q.sealed && r.buf == q.buf
  {
    var q := Step(st.buf, word, maxChars);
    var cur := st.current + q.sealed;
    AppendAssoc(AllLines(st.pages), st.current, q.sealed);
    if |cur| == maxLines {
      var pages := st.pages + [PageValue(|st.pages| + 1, cur)];
      assert pages[..|pages| - 1] == st.pages;
      assert AllLines(pages) + [] == AllLines(st.pages) + cur;
    }
  }

  lemma {:induction false} ProcessWordsWrites(st: Progress, ws: seq<string>, maxChars: int, maxLines: int)
    ensures var r := ProcessWords(st, ws, maxChars, maxLines);
            var w := WrapWords(st.buf, ws, maxChars);
            Written(r) == Written(st) + w.sealed && r.buf == w.buf
    decreases |ws|
  {
    if ws == [] {
      assert Written(st) + [] == Written(st);
    } else {
      var init := ws[..|ws| - 1];
      ProcessWordsWrites(st, init, maxChars, maxLines);
      var p := ProcessWords(st, init, maxChars, maxLines);
      var w := WrapWords(st.buf, init, maxChars);
      ProcessWordWrites(p, ws[|ws| - 1], maxChars, maxLines);
      AppendAssoc(Written(st), w.sealed, Step(w.buf, ws[|ws| - 1], maxChars).sealed);
    }
  }

  lemma {:induction false} ProcessLinesWrites(st: Progress, lines: seq<string>, maxChars: int, maxLines: int)
    ensures Written(ProcessLines(st, lines, maxChars, maxLines)) == Written(st) + SealedLines(lines, maxChars)
    decreases |lines|
  {
    if lines == [] {
      assert Written(st) + [] == Written(st);
    } else {
      var init := lines[..|lines| - 1];
      ProcessLinesWrites(st, init, maxChars, maxLines);
      var p := ProcessLines(st, init, maxChars, maxLines);
      var ws := Fields(lines[|lines| - 1]);
      ProcessWordsWrites(p.(buf := ""), ws, maxChars, maxLines);
      AppendAssoc(Written(st), SealedLines(init, maxChars), WrapWords("", ws, maxChars).sealed);
    }
  }

  /** The lines of the document, read page after page, are exactly the
      lines each input line seals on its own, in input order: page breaks
      neither add, drop nor reorder lines, and nothing of the buffer left
      at the end of an input line ever reaches the document. */
  lemma DocumentLines(lines: seq<string>, maxChars: int, maxLines: int)
    ensures AllLines(Paginate(lines, maxChars, maxLines)) == SealedLines(lines, maxChars)
  {
    var p := ProcessLines(Start, lines, maxChars, maxLines);
    var sealed := SealedLines(lines, maxChars);
    assert [] + sealed == sealed;
    assert Written(Start) == [];
    ProcessLinesWrites(Start, lines, maxChars, maxLines);
    assert Written(p) == sealed;
    FinishWritten(p);
  }

  lemma FinishWritten(p: Progress)
    ensures AllLines(Finish(p)) == Written(p)
  {
    if |p.current| > 0 {
      var doc := p.pages + [PageValue(|p.pages| + 1, p.current)];
      assert doc[..|doc| - 1] == p.pages;
    } else {
      assert p.current == [];
    }
  }

  /** The lines an input line contributes are its words in order, unsplit
      and unchanged, grouped into lines joined by single spaces (a group
      may carry one leading space); the words still in the buffer when
      the input line ends are the ones after the last group, and they are
      dropped. */
  lemma InputLineContribution(line: string, maxChars: int)
    ensures var w := WrapSegments(Empty, Fields(line), maxChars);
            && WrapWords("", Fields(line), maxChars).sealed == Lines(w.segs)
            && (forall i :: 0 <= i < |w.segs| ==> Filled(w.segs[i]))
            && Flatten(w.segs) + w.rest.words == Fields(line)
  {
    assert LineOf(Empty) == "";
    WrapWordsMirrored(Empty, Fields(line), maxChars);
    assert Empty.words + Fields(line) == Fields(line);
  }

  lemma {:induction false} AllLinesEmpty(pages: seq<PageValue>)
    requires forall i :: 0 <= i < |pages| ==> |pages[i].lines| >= 1
    ensures AllLines(pages) == [] <==> pages == []
    decreases |pages|
  {
    if pages != [] {
      AllLinesEmpty(pages[..|pages| - 1]);
      assert |pages[|pages| - 1].lines| >= 1;
    }
  }

  /** The document has no page exactly when no input line fills a line
      on its own: words never carry over to the next input line. */
  lemma NoPagesIffNothingSealed(lines: seq<string>, maxChars: int, maxLines: int)
    requires maxLines >= 1
    ensures Paginate(lines, maxChars, maxLines) == [] <==> SealedLines(lines, maxChars) == []
  {
    DocumentLines(lines, maxChars, maxLines);
    NoEmptyPage(lines, maxChars, maxLines);
    AllLinesEmpty(Paginate(lines, maxChars, maxLines));
  }

  lemma {:induction false} BlankSealsNothing(lines: seq<string>, maxChars: int)
    requires forall k :: 0 <= k < |lines| ==> AllSpace(lines[k])
    ensures SealedLines(lines, maxChars) == []
    decreases |lines|
  {
    if lines != [] {
      BlankSealsNothing(lines[..|lines| - 1], maxChars);
      FieldsEmptyIff(lines[|lines| - 1]);
    }
  }

  /** Empty input, and input of blank or whitespace-only lines, gives a
      document with no page. */
  lemma BlankInputHasNoPages(lines: seq<string>, maxChars: int, maxLines: int)
    requires maxLines >= 1
    requires forall k :: 0 <= k < |lines| ==> AllSpace(lines[k])
    ensures Paginate(lines, maxChars, maxLines) == []
  {
    BlankSealsNothing(lines, maxChars);
    NoPagesIffNothingSealed(lines, maxChars, maxLines);
  }

  lemma OneLineInput(line: string, maxChars: int, maxLines: int)
    ensures Paginate([line], maxChars, maxLines) == Finish(ProcessWords(Start, Fields(line), maxChars, maxLines))
  {
    assert [line][..0] == [];
    assert ProcessLines(Start, [], maxChars, maxLines) == Start;
    assert ProcessLines(Start, [line], maxChars, maxLines) == ProcessLine(Start, line, maxChars, maxLines);
    assert Start.(buf := "") == Start;
  }

  /** An input of one single-word line gives no page, however long the
      word: a word that fits stays in the buffer, shorter than the limit,
      and a longer one is given a leading space and stays there too; in
      both cases the buffer is dropped when the line ends. */
  lemma OneWordInput(line: string, word: string, maxChars: int, maxLines: int)
    requires maxChars >= 2 && maxLines >= 1
    requires Fields(line) == [word]
    ensures Paginate([line], maxChars, maxLines) == []
  {
    OneLineInput(line, maxChars, maxLines);
    assert [word][..0] == [];
    assert ProcessWords(Start, [word], maxChars, maxLines) == ProcessWord(Start, word, maxChars, maxLines);
    var q := Step("", word, maxChars);
    if |word| + 1 > maxChars {
      OversizedWordGetsLeadingSpace("", word, maxChars);
    } else {
      assert Place("", word, maxChars) == Placed([], word);
    }
    assert q.sealed == [];
  }

  // The page break that can be skipped.

  /** Once the page in progress has more than `maxLines` lines, the page
      check (an equality test) never fires again: no further page is added
      and the last page keeps growing. */
  lemma {:induction false} PastLimitNeverBreaks(st: Progress, ws: seq<string>, maxChars: int, maxLines: int)
    requires |st.current| > maxLines
    ensures var r := ProcessWords(st, ws, maxChars, maxLines);
            r.pages == st.pages && |r.current| >= |st.current|
    decreases |ws|
  {
    if ws != [] {
      PastLimitNeverBreaks(st, ws[..|ws| - 1], maxChars, maxLines);
    }
  }

  /** The same across input lines. */
  lemma {:induction false} PastLimitNeverBreaksAcrossLines(st: Progress, lines: seq<string>, maxChars: int, maxLines: int)
    requires |st.current| > maxLines
    ensures var r := ProcessLines(st, lines, maxChars, maxLines);
            r.pages == st.pages && |r.current| >= |st.current|
    decreases |lines|
  {
    if lines != [] {
      PastLimitNeverBreaksAcrossLines(st, lines[..|lines| - 1], maxChars, maxLines);
      var p := ProcessLines(st, lines[..|lines| - 1], maxChars, maxLines);
      PastLimitNeverBreaks(p.(buf := ""), Fields(lines[|lines| - 1]), maxChars, maxLines);
    }
  }

  lemma {:induction false} ShortWordsFillOneLineEach(a: string, k: nat, maxChars: int, maxLines: int)
    requires maxChars >= 2 && |a| == maxChars - 1 && 1 <= k <= maxLines
    ensures ProcessWords(Start, Repeat(a, k), maxChars, maxLines) == Progress([], Repeat(a, k - 1), a)
    decreases k
  {
    RepeatSnoc(a, k - 1);
    var ws := Repeat(a, k);
    assert ws[..k - 1] == Repeat(a, k - 1) && ws[k - 1] == a;
    if k == 1 {
      assert Repeat(a, 0) == [];
    } else {
      ShortWordsFillOneLineEach(a, k - 1, maxChars, maxLines);
      var st := ProcessWords(Start, Repeat(a, k - 1), maxChars, maxLines);
      assert st == Progress([], Repeat(a, k - 2), a);
      assert PlaceBranch(a, a, maxChars) == FlushAndStart;
      assert Step(a, a, maxChars) == Placed([a], a);
      RepeatSnoc(a, k - 2);
      assert st.current + [a] == Repeat(a, k - 1);
      assert ProcessWord(st, a, maxChars, maxLines) == Progress([], Repeat(a, k - 1), a);
    }
  }

  /** For every pair of limits some one-line input makes the last page
      hold `maxLines + 1` lines: `maxLines` words one character short of
      the limit bring the page to `maxLines - 1` lines with a word in the
      buffer, and a word exactly as long as the limit then seals two lines
      at once, stepping over the page check. With the source's 80 and 25
      this is a single page of 26 lines. */
  lemma LastPageCanOverflow(maxChars: int, maxLines: int)
    requires maxChars >= 2 && maxLines >= 1
    ensures exists line :: var doc := Paginate([line], maxChars, maxLines);
                           |doc| == 1 && |doc[0].lines| == maxLines + 1
  {
    var a := Repeat('x', maxChars - 1);
    var b := Repeat('x', maxChars);
    var ws := Repeat(a, maxLines) + [b];
    assert AllWords(ws) by {
      forall i | 0 <= i < |ws| ensures IsWord(ws[i]) {
        if i < maxLines { assert ws[i] == a; } else { assert ws[i] == b; }
      }
    }
    var line := Join(ws);
    FieldsOfJoin(ws);
    OneLineInput(line, maxChars, maxLines);
    ShortWordsFillOneLineEach(a, maxLines, maxChars, maxLines);
    assert ws[..|ws| - 1] == Repeat(a, maxLines);
    TwoLinesFromOneWord(a, b, maxChars);
    var st := ProcessWords(Start, ws, maxChars, maxLines);
    assert st == Progress([], Repeat(a, maxLines - 1) + [a, b], "");
    var doc := Paginate([line], maxChars, maxLines);
    assert doc == Finish(st);
    assert |doc| == 1 && |doc[0].lines| == maxLines + 1;
  }
}
