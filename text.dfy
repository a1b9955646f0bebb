/**
 * Text utilities the paginator relies on: splitting an input line into
 * words (Go's strings.Fields, on single-byte characters), joining words
 * with single spaces, and rendering integers in decimal (the %d verb).
 *
 * A `string` here stands for a Go string of single-byte characters, so
 * `|s|` is Go's `len(s)`.
 */
module Text {

  /** Whitespace as Go's unicode.IsSpace classifies single-byte characters:
      space, tab, line feed, vertical tab, form feed and carriage return. */
  predicate IsSpace(c: char) {
    c == ' ' || 9 <= c as int <= 13
  }

  /** A word as strings.Fields yields it: non-empty and free of whitespace. */
  predicate IsWord(w: string) {
    w != [] && forall i :: 0 <= i < |w| ==> !IsSpace(w[i])
  }

  predicate AllWords(ws: seq<string>) {
    forall i :: 0 <= i < |ws| ==> IsWord(ws[i])
  }

  predicate AllSpace(s: string) {
    forall i :: 0 <= i < |s| ==> IsSpace(s[i])
  }

  /** Drops the leading whitespace of `s`. */
  function TrimLeft(s: string): (r: string)
    ensures |r| <= |s| && r == s[|s| - |r|..]
    ensures r == [] || !IsSpace(r[0])
    ensures AllSpace(s[..|s| - |r|])
  {
    if s != [] && IsSpace(s[0]) then TrimLeft(s[1..]) else s
  }

  /** The length of the run of non-whitespace characters that starts `s`. */
  function WordLength(s: string): (n: nat)
    ensures n <= |s|
    ensures forall i :: 0 <= i < n ==> !IsSpace(s[i])
    ensures n < |s| ==> IsSpace(s[n])
  {
    if s == [] || IsSpace(s[0]) then 0 else 1 + WordLength(s[1..])
  }

  /** strings.Fields: the maximal runs of non-whitespace characters of `s`,
      in order. Every one is a word. */
  function Fields(s: string): (ws: seq<string>)
    ensures AllWords(ws)
    decreases |s|
  {
    var t := TrimLeft(s);
    if t == [] then []
    else
      var n := WordLength(t);
      var rest := Fields(t[n..]);
      LeadingWord(t);
      AllWordsCons(t[..n], rest);
      [t[..n]] + rest
  }

  /** A string that starts with a non-space starts with a word. */
  lemma LeadingWord(t: string)
    requires t != [] && !IsSpace(t[0])
    ensures 1 <= WordLength(t) && IsWord(t[..WordLength(t)])
  {
  }

  lemma AllWordsCons(w: string, ws: seq<string>)
    requires IsWord(w) && AllWords(ws)
    ensures AllWords([w] + ws)
  {
    assert forall i :: 1 <= i <= |ws| ==> ([w] + ws)[i] == ws[i - 1];
  }

  /** strings.Fields finds no word exactly when the string is all
      whitespace. */
  lemma FieldsEmptyIff(s: string)
    ensures Fields(s) == [] <==> AllSpace(s)
  {
    var t := TrimLeft(s);
    if t == [] {
      assert s[..|s|] == s;
    } else {
      assert s[|s| - |t|] == t[0];
    }
  }

  /** The words joined with single spaces, as the line buffer accumulates
      them (`currentLine += " " + word`). */
  function Join(ws: seq<string>): string {
    if |ws| == 0 then ""
    else if |ws| == 1 then ws[0]
    else Join(ws[..|ws| - 1]) + " " + ws[|ws| - 1]
  }

  lemma {:induction false} JoinCons(w: string, ws: seq<string>)
    requires ws != []
    ensures Join([w] + ws) == w + " " + Join(ws)
    decreases |ws|
  {
    if |ws| == 1 {
      assert ([w] + ws)[..1] == [w];
    } else {
      var init := ws[..|ws| - 1];
      assert ([w] + ws)[..|ws|] == [w] + init;
      JoinCons(w, init);
    }
  }

  /** The joined words contain no whitespace other than the separators,
      and in particular no line feed. */
  lemma {:induction false} JoinHasNoLineFeed(ws: seq<string>)
    requires AllWords(ws)
    ensures forall i :: 0 <= i < |Join(ws)| ==> Join(ws)[i] != '\n'
  {
    if |ws| > 1 {
      var init := ws[..|ws| - 1];
      JoinHasNoLineFeed(init);
      var j := Join(init);
      var w := ws[|ws| - 1];
      forall i | 0 <= i < |Join(ws)| ensures Join(ws)[i] != '\n' {
        if i < |j| {
          assert Join(ws)[i] == j[i];
        } else if i > |j| {
          assert Join(ws)[i] == w[i - |j| - 1];
        }
      }
    } else if |ws| == 1 {
      assert IsWord(ws[0]);
    }
  }

  lemma FieldsOfWord(w: string)
    requires IsWord(w)
    ensures Fields(w) == [w]
  {
    assert TrimLeft(w) == w;
    assert WordLength(w) == |w|;
    assert w[|w|..] == [];
    assert w[..|w|] == w;
  }

  lemma FieldsSkipSpace(r: string)
    ensures Fields(" " + r) == Fields(r)
  {
    assert (" " + r)[1..] == r;
    assert TrimLeft(" " + r) == TrimLeft(r);
  }

  lemma FieldsAfterWord(w: string, r: string)
    requires IsWord(w)
    ensures Fields(w + " " + r) == [w] + Fields(r)
  {
    var s := w + " " + r;
    assert s[0] == w[0];
    assert TrimLeft(s) == s;
    var n := WordLength(s);
    assert s[|w|] == ' ';
    assert n == |w|;
    assert s[..n] == w;
    assert s[n..] == " " + r;
    FieldsSkipSpace(r);
  }

  /** Splitting joined words gives the words back: strings.Fields undoes
      the join for any list of words. */
  lemma {:induction false} FieldsOfJoin(ws: seq<string>)
    requires AllWords(ws)
    ensures Fields(Join(ws)) == ws
    decreases |ws|
  {
    if |ws| == 1 {
      FieldsOfWord(ws[0]);
    } else if |ws| > 1 {
      var w, rest := ws[0], ws[1..];
      assert ws == [w] + rest;
      assert IsWord(w);
      assert AllWords(rest) by {
        forall i | 0 <= i < |rest| ensures IsWord(rest[i]) {
          assert rest[i] == ws[i + 1];
        }
      }
      JoinCons(w, rest);
      FieldsAfterWord(w, Join(rest));
      FieldsOfJoin(rest);
    }
  }

  // Decimal rendering of integers, as fmt's %d verb prints them.

  predicate IsDigit(c: char) {
    '0' <= c <= '9'
  }

  predicate AllDigits(s: string) {
    forall i :: 0 <= i < |s| ==> IsDigit(s[i])
  }

  function DigitChar(d: nat): (c: char)
    requires d < 10
    ensures IsDigit(c) && c as int - '0' as int == d
  {
    ('0' as int + d) as char
  }

  /** The decimal digits of a natural number, without leading zeros. */
  function NatDecimal(n: nat): (s: string)
    ensures |s| >= 1 && AllDigits(s)
    ensures s[0] == '0' ==> n == 0
  {
    if n < 10 then [DigitChar(n)] else NatDecimal(n / 10) + [DigitChar(n % 10)]
  }

  /** %d: an optional minus sign followed by the digits of the magnitude. */
  function Decimal(n: int): string {
    if n < 0 then "-" + NatDecimal(-n) else NatDecimal(n)
  }

  function ParseNat(s: string): nat
    requires AllDigits(s)
  {
    if s == [] then 0
    else 10 * ParseNat(s[..|s| - 1]) + (s[|s| - 1] as int - '0' as int)
  }

  predicate IsDecimal(s: string) {
    if |s| >= 1 && s[0] == '-' then |s| >= 2 && AllDigits(s[1..])
    else |s| >= 1 && AllDigits(s)
  }

  function ParseDecimal(s: string): int
    requires IsDecimal(s)
  {
    if s[0] == '-' then -(ParseNat(s[1..]) as int) else ParseNat(s)
  }

  lemma {:induction false} ParseNatDecimal(n: nat)
    ensures ParseNat(NatDecimal(n)) == n
  {
    if n >= 10 {
      ParseNatDecimal(n / 10);
      var s := NatDecimal(n);
      assert s[..|s| - 1] == NatDecimal(n / 10);
    }
  }

  /** Decimal rendering is well formed, contains no line feed, and parses
      back to the number it renders. */
  lemma DecimalRoundTrip(n: int)
    ensures IsDecimal(Decimal(n)) && ParseDecimal(Decimal(n)) == n
    ensures forall i :: 0 <= i < |Decimal(n)| ==> Decimal(n)[i] != '\n'
  {
    var d := Decimal(n);
    if n < 0 {
      var m := NatDecimal(-n);
      assert d == "-" + m;
      assert d[1..] == m;
      ParseNatDecimal(-n);
      assert d[0] == '-';
      forall i | 0 <= i < |d| ensures d[i] != '\n' {
        if i > 0 { assert d[i] == m[i - 1]; }
      }
    } else {
      var m := NatDecimal(n);
      assert d == m;
      ParseNatDecimal(n);
      assert d[0] != '-';
      forall i | 0 <= i < |d| ensures d[i] != '\n' {
        assert IsDigit(m[i]);
      }
    }
  }
}
