/**
 * The line-filling half of paginateDocument (test.go:84-120): how one word
 * changes the line buffer `currentLine` and which lines it seals onto the
 * page, and the same process over the words of one input line.
 *
 * The buffer is modelled twice: as the string the source keeps, and as
 * the words it is made of (a `Segment`). The lemmas tie the two together,
 * which shows that output lines are made of whole input words, in order.
 */
module Wrap {
  import opened Text
  import opened Seqs

  /** The arm of the placement conditional (test.go:90-113) a word takes. */
  datatype Branch =
    | Tolerate        // over the limit, yet buffer plus one space is under it: append anyway
    | FlushAndStart   // seal the non-empty buffer and start a new one with the word
    | StartOversized  // empty buffer, word too long: the buffer becomes the word
    | Fit             // the word fits: append it, with a space if the buffer is non-empty

  function PlaceBranch(buf: string, word: string, maxChars: int): Branch {
    if |buf| + |word| + 1 > maxChars then
      if |buf| + 1 < maxChars then Tolerate
      else if buf != "" then FlushAndStart
      else StartOversized
    else Fit
  }

  /** Lines sealed onto the page, in order, and the buffer left behind. */
  datatype Placed = Placed(sealed: seq<string>, buf: string)

  /** Places one word in the buffer (test.go:87-113). Only the old buffer
      can be sealed here, and only when it is non-empty and at most one
      character short of the limit. The word always ends the new buffer. */
  function Place(buf: string, word: string, maxChars: int): (p: Placed)
    ensures |p.sealed| <= 1
    ensures p.sealed != [] ==> p.sealed == [buf] && buf != "" && |buf| >= maxChars - 1
    ensures |word| <= |p.buf| && p.buf[|p.buf| - |word|..] == word
  {
    match PlaceBranch(buf, word, maxChars)
    case Tolerate => Placed([], buf + " " + word)
    case FlushAndStart => Placed([buf], word)
    case StartOversized => Placed([], word)
    case Fit => Placed([], if buf == "" then word else buf + " " + word)
  }

  /** One iteration of the word loop up to the page check (test.go:87-120):
      place the word, then seal the buffer if it is exactly full. At most
      two lines are sealed, each at least `maxChars - 1` long, a line
      sealed because it is full is exactly `maxChars` long, and the buffer
      is never left exactly full. */
  function Step(buf: string, word: string, maxChars: int): (p: Placed)
    ensures |p.sealed| <= 2
    ensures forall i :: 0 <= i < |p.sealed| ==> |p.sealed[i]| >= maxChars - 1
    ensures word != "" && p.buf == "" ==> |p.sealed| >= 1 && |p.sealed[|p.sealed| - 1]| == maxChars
    ensures p.buf != "" ==> |p.buf| != maxChars
  {
    var q := Place(buf, word, maxChars);
    if |q.buf| == maxChars then Placed(q.sealed + [q.buf], "") else q
  }

  /** The word loop of one input line from a given buffer: the lines it
      seals, in order, and the buffer that is left. Every sealed line is
      at least `maxChars - 1` long, so `maxChars` is not an upper bound but
      all but one character of a lower bound. */
  function WrapWords(buf: string, ws: seq<string>, maxChars: int): (p: Placed)
    ensures forall i :: 0 <= i < |p.sealed| ==> |p.sealed[i]| >= maxChars - 1
  {
    if ws == [] then Placed([], buf)
    else
      var p := WrapWords(buf, ws[..|ws| - 1], maxChars);
      var q := Step(p.buf, ws[|ws| - 1], maxChars);
      Placed(p.sealed + q.sealed, q.buf)
  }

  /** With a limit of at least two the StartOversized arm (test.go:100-103)
      is dead: an empty buffer always takes the Tolerate arm for a word that
      does not fit, and so becomes a space followed by the word. */
  lemma OversizedWordGetsLeadingSpace(buf: string, word: string, maxChars: int)
    requires maxChars >= 2
    ensures PlaceBranch(buf, word, maxChars) != StartOversized
    ensures buf == "" && |word| >= maxChars ==> Place(buf, word, maxChars) == Placed([], " " + word)
  {
  }

  /** The Tolerate arm makes a line longer than the limit. */
  lemma ToleranceExceedsLimit(buf: string, word: string, maxChars: int)
    requires 0 < |buf| <= maxChars - 2 && |buf| + |word| + 1 > maxChars
    ensures Place(buf, word, maxChars) == Placed([], buf + " " + word)
    ensures |Place(buf, word, maxChars).buf| > maxChars
  {
  }

  /** One word can seal two lines: a buffer one short of the limit is
      flushed, and a word exactly as long as the limit is flushed after it. */
  lemma TwoLinesFromOneWord(buf: string, word: string, maxChars: int)
    requires |buf| == maxChars - 1 >= 1 && |word| == maxChars
    ensures Step(buf, word, maxChars) == Placed([buf, word], "")
  {
  }

  // The buffer as words.

  /** A buffer as words: an optional leading space (left by an oversized
      word placed in an empty buffer) followed by words joined by spaces. */
  datatype Segment = Segment(lead: bool, words: seq<string>)

  const Empty := Segment(false, [])

  function LineOf(g: Segment): string {
    (if g.lead then " " else "") + Join(g.words)
  }

  predicate WellFormed(g: Segment) {
    AllWords(g.words) && (g.lead ==> g.words != [])
  }

  /** Sealed segments, in order, and the segment left in the buffer. */
  datatype Split = Split(segs: seq<Segment>, rest: Segment)

  /** Place, on the words of the buffer. */
  ghost function PlaceWords(g: Segment, word: string, maxChars: int): Split {
    match PlaceBranch(LineOf(g), word, maxChars)
    case Tolerate => Split([], if g.words == [] then Segment(true, [word]) else Segment(g.lead, g.words + [word]))
    case FlushAndStart => Split([g], Segment(false, [word]))
    case StartOversized => Split([], Segment(false, [word]))
    case Fit => Split([], Segment(g.lead, g.words + [word]))
  }

  /** Step, on the words of the buffer. */
  ghost function StepWords(g: Segment, word: string, maxChars: int): Split {
    var p := PlaceWords(g, word, maxChars);
    if |LineOf(p.rest)| == maxChars then Split(p.segs + [p.rest], Empty) else p
  }

  /** WrapWords, on the words of the buffer. */
  ghost function WrapSegments(g: Segment, ws: seq<string>, maxChars: int): Split {
    if ws == [] then Split([], g)
    else
      var p := WrapSegments(g, ws[..|ws| - 1], maxChars);
      var q := StepWords(p.rest, ws[|ws| - 1], maxChars);
      Split(p.segs + q.segs, q.rest)
  }

  /** All the words of the segments, in order. */
  function Flatten(gs: seq<Segment>): seq<string> {
    if gs == [] then [] else Flatten(gs[..|gs| - 1]) + gs[|gs| - 1].words
  }

  lemma {:induction false} FlattenAppend(a: seq<Segment>, b: seq<Segment>)
    ensures Flatten(a + b) == Flatten(a) + Flatten(b)
    decreases |b|
  {
    if b != [] {
      var b' := b[..|b| - 1];
      var x := b[|b| - 1];
      assert a + b == (a + b') + [x];
      assert (a + b)[..|a + b| - 1] == a + b';
      calc {
        Flatten(a + b);
        Flatten(a + b') + x.words;
        { FlattenAppend(a, b'); }
        Flatten(a) + Flatten(b') + x.words;
      }
    } else {
      assert a + b == a;
    }
  }

  /** The line of each segment. */
  function Lines(gs: seq<Segment>): (r: seq<string>)
    ensures |r| == |gs| && forall i :: 0 <= i < |gs| ==> r[i] == LineOf(gs[i])
  {
    seq(|gs|, i requires 0 <= i < |gs| => LineOf(gs[i]))
  }

  /** A sealed segment: well formed and holding at least one word. */
  predicate Filled(g: Segment) {
    WellFormed(g) && g.words != []
  }

  /** The sealed lines are the lines of filled segments, the buffer is the
      line of a well-formed segment, and the words of the sealed segments
      followed by those left in the buffer are `before`. */
  ghost predicate Mirrors(sealed: seq<string>, buf: string, segs: seq<Segment>, h: Segment, before: seq<string>) {
    && sealed == Lines(segs)
    && (forall i :: 0 <= i < |segs| ==> Filled(segs[i]))
    && buf == LineOf(h) && WellFormed(h)
    && Flatten(segs) + h.words == before
  }

  lemma JoinSnoc(ws: seq<string>, w: string)
    requires ws != []
    ensures Join(ws + [w]) == Join(ws) + " " + w
  {
    assert (ws + [w])[..|ws|] == ws;
  }

  lemma FlattenOne(g: Segment)
    ensures Flatten([g]) == g.words
  {
    assert [g][..0] == [];
  }

  lemma PlaceMirrored(g: Segment, word: string, maxChars: int)
    requires WellFormed(g) && IsWord(word)
    ensures var q := Place(LineOf(g), word, maxChars);
            var p := PlaceWords(g, word, maxChars);
            Mirrors(q.sealed, q.buf, p.segs, p.rest, g.words + [word])
  {
    if g.words == [] {
      PlaceMirroredEmpty(g, word, maxChars);
    } else {
      PlaceMirroredNonEmpty(g, word, maxChars);
    }
  }

  lemma PlaceMirroredEmpty(g: Segment, word: string, maxChars: int)
    requires WellFormed(g) && IsWord(word) && g.words == []
    ensures var q := Place(LineOf(g), word, maxChars);
            var p := PlaceWords(g, word, maxChars);
            Mirrors(q.sealed, q.buf, p.segs, p.rest, g.words + [word])
  {
    var buf := LineOf(g);
    var b := PlaceBranch(buf, word, maxChars);
    var h := if b == Tolerate then Segment(true, [word]) else Segment(false, [word]);
    assert Place(buf, word, maxChars) == Placed([], LineOf(h)) by {
      assert buf == "";
      assert Join([word]) == word;
    }
    assert PlaceWords(g, word, maxChars) == Split([], h);
    assert g.words + [word] == h.words;
    assert WellFormed(h) by { assert AllWords([word]); }
    MirrorsNothingSealed(h);
  }

  /** A buffer that seals nothing mirrors its own words. */
  lemma MirrorsNothingSealed(h: Segment)
    requires WellFormed(h)
    ensures Mirrors([], LineOf(h), [], h, h.words)
  {
    assert Lines([]) == [];
    assert Flatten([]) + h.words == h.words;
  }

  lemma PlaceMirroredNonEmpty(g: Segment, word: string, maxChars: int)
    requires WellFormed(g) && IsWord(word) && g.words != []
    ensures var q := Place(LineOf(g), word, maxChars);
            var p := PlaceWords(g, word, maxChars);
            Mirrors(q.sealed, q.buf, p.segs, p.rest, g.words + [word])
  {
    var buf := LineOf(g);
    assert buf != "" by {
      if !g.lead { assert IsWord(g.words[0]); JoinNonEmpty(g.words); }
    }
    var b := PlaceBranch(buf, word, maxChars);
    if b == FlushAndStart {
      assert Place(buf, word, maxChars) == Placed([buf], word);
      assert PlaceWords(g, word, maxChars) == Split([g], Segment(false, [word]));
      FlushMirrored(g, word);
    } else {
      assert b != StartOversized;
      assert Place(buf, word, maxChars) == Placed([], buf + " " + word);
      assert PlaceWords(g, word, maxChars) == Split([], Segment(g.lead, g.words + [word]));
      AppendMirrored(g, word);
    }
  }

  /** The buffer is sealed and the word starts the next one. */
  lemma FlushMirrored(g: Segment, word: string)
    requires WellFormed(g) && IsWord(word) && g.words != []
    ensures Mirrors([LineOf(g)], word, [g], Segment(false, [word]), g.words + [word])
  {
    FlattenOne(g);
    assert Lines([g]) == [LineOf(g)];
    assert LineOf(Segment(false, [word])) == word;
    assert AllWords([word]);
  }

  /** The word is appended to a non-empty buffer after a space. */
  lemma AppendMirrored(g: Segment, word: string)
    requires WellFormed(g) && IsWord(word) && g.words != []
    ensures Mirrors([], LineOf(g) + " " + word, [], Segment(g.lead, g.words + [word]), g.words + [word])
  {
    JoinSnoc(g.words, word);
    assert AllWords(g.words + [word]);
    assert Lines([]) == [] && Flatten([]) == [];
  }

  lemma {:induction false} JoinNonEmpty(ws: seq<string>)
    requires ws != [] && IsWord(ws[0])
    ensures Join(ws) != ""
    decreases |ws|
  {
    if |ws| > 1 {
      JoinNonEmpty(ws[..|ws| - 1]);
    }
  }

  lemma MirrorsAppend(s1: seq<string>, b1: string, g1: seq<Segment>, h1: Segment, before1: seq<string>,
                      s2: seq<string>, b2: string, g2: seq<Segment>, h2: Segment, extra: seq<string>)
    requires Mirrors(s1, b1, g1, h1, before1)
    requires Mirrors(s2, b2, g2, h2, h1.words + extra)
    ensures Mirrors(s1 + s2, b2, g1 + g2, h2, before1 + extra)
  {
    LinesAppend(g1, g2);
    FilledAppend(g1, g2);
    FlattenAppend(g1, g2);
    AppendAssoc(Flatten(g1), Flatten(g2), h2.words);
    AppendAssoc(Flatten(g1), h1.words, extra);
  }

  lemma LinesAppend(a: seq<Segment>, b: seq<Segment>)
    ensures Lines(a + b) == Lines(a) + Lines(b)
  {
    var l, r := Lines(a + b), Lines(a) + Lines(b);
    assert |l| == |r|;
    forall i | 0 <= i < |l| ensures l[i] == r[i] {
      if i >= |a| { assert (a + b)[i] == b[i - |a|]; }
    }
  }

  lemma FilledAppend(a: seq<Segment>, b: seq<Segment>)
    requires forall i :: 0 <= i < |a| ==> Filled(a[i])
    requires forall i :: 0 <= i < |b| ==> Filled(b[i])
    ensures forall i :: 0 <= i < |a + b| ==> Filled((a + b)[i])
  {
    forall i | 0 <= i < |a + b| ensures Filled((a + b)[i]) {
      if i >= |a| { assert (a + b)[i] == b[i - |a|]; }
    }
  }

  lemma SealMirrored(h: Segment)
    requires Filled(h)
    ensures Mirrors([LineOf(h)], "", [h], Empty, h.words)
  {
    FlattenOne(h);
    assert Lines([h]) == [LineOf(h)];
  }

  lemma {:induction false} StepMirrored(g: Segment, word: string, maxChars: int)
    requires WellFormed(g) && IsWord(word)
    ensures var q := Step(LineOf(g), word, maxChars);
            var p := StepWords(g, word, maxChars);
            Mirrors(q.sealed, q.buf, p.segs, p.rest, g.words + [word])
  {
    PlaceMirrored(g, word, maxChars);
    var q := Place(LineOf(g), word, maxChars);
    var s, h := PlaceWords(g, word, maxChars).segs, PlaceWords(g, word, maxChars).rest;
    if |LineOf(h)| == maxChars {
      assert h.words != [] by {
        assert |word| <= |q.buf|;
        assert h.words == [] ==> LineOf(h) == "";
      }
      SealMirrored(h);
      MirrorsAppend(q.sealed, q.buf, s, h, g.words + [word], [q.buf], "", [h], Empty, []);
      assert g.words + [word] + [] == g.words + [word];
    }
  }

  /** The lines one input line's words seal are exactly the joined words
      of consecutive groups of those words (each group non-empty, possibly
      after a single leading space), in order and unsplit; the words after
      the last group are the ones left in the buffer. */
  lemma {:induction false} WrapWordsMirrored(g: Segment, ws: seq<string>, maxChars: int)
    requires WellFormed(g) && AllWords(ws)
    ensures var p := WrapWords(LineOf(g), ws, maxChars);
            var w := WrapSegments(g, ws, maxChars);
            Mirrors(p.sealed, p.buf, w.segs, w.rest, g.words + ws)
    decreases |ws|
  {
    if ws == [] {
      assert g.words + ws == g.words;
      assert Lines([]) == [] && Flatten([]) == [];
    } else {
      var init := ws[..|ws| - 1];
      var w := ws[|ws| - 1];
      assert ws == init + [w];
      AppendAssoc(g.words, init, [w]);
      WrapWordsMirrored(g, init, maxChars);
      var p := WrapWords(LineOf(g), init, maxChars);
      var r := WrapSegments(g, init, maxChars);
      assert IsWord(w);
      StepMirrored(r.rest, w, maxChars);
      var q := Step(p.buf, w, maxChars);
      var t := StepWords(r.rest, w, maxChars);
      MirrorsAppend(p.sealed, p.buf, r.segs, r.rest, g.words + init, q.sealed, q.buf, t.segs, t.rest, [w]);
    }
  }
}
