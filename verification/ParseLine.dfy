/** The tokenizer of the configuration files (parse_line of src/common/parse.c) over a stream
    with one pushed-back character and an end-of-file flag, and the loop that reads a file
    with it. Characters are 7-bit, so that none is taken for the end of the file. */
module ParseLine {
  import opened Options

  const COMMENT := '#'
  const EQUAL := '='
  const MAX_EQUAL := 2

  predicate IsWhitespace(c: char) {
    c == ' ' || c == '\t' || c == '\r'
  }

  predicate IsQuote(c: char) {
    c == '\'' || c == '"'
  }

  // The specification, on the text and a position in it.

  /** Where the line at p ends: behind its newline, or at the end of the text. */
  function LineEnd(text: string, p: nat): (q: nat)
    requires p <= |text|
    ensures p <= q <= |text|
    decreases |text| - p
  {
    if p == |text| then p else if text[p] == '\n' then p + 1 else LineEnd(text, p + 1)
  }

  predicate HasNewline(text: string, p: nat)
    requires p <= |text|
  {
    exists i :: p <= i < |text| && text[i] == '\n'
  }

  function SkipBlanks(text: string, p: nat): (q: nat)
    requires p <= |text|
    ensures p <= q <= |text|
    decreases |text| - p
  {
    if p < |text| && IsWhitespace(text[p]) then SkipBlanks(text, p + 1) else p
  }

  /** Where a part of the parser leaves the stream. */
  datatype Place = Place(pos: nat, eof: bool)

  /** Whether there is something to parse, and where the blanks end. */
  function Whitespace(text: string, at: Place): (bool, Place)
    requires at.pos <= |text|
  {
    if at.eof then (false, at)
    else
      var q := SkipBlanks(text, at.pos);
      if q == |text| then (true, Place(q, true))
      else if text[q] == COMMENT then (false, Place(q + 1, false))
      else (true, Place(q, false))
  }

  /** A word of at most n characters: quotes are dropped and protect nothing but the comment
      character. */
  function Word(text: string, p: nat, quoted: bool, n: nat): (string, Place)
    requires p <= |text| && n > 0
    decreases |text| - p
  {
    if p == |text| then ("", Place(p, true))
    else
      var c := text[p];
      if c == COMMENT && !quoted then ("", Place(p + 1, false))
      else if IsQuote(c) then Word(text, p + 1, !quoted, n)
      else if IsWhitespace(c) || c == '\n' || c == EQUAL then ("", Place(p, false))
      else if n == 1 then ([c], Place(p + 1, false))
      else
        var (w, at) := Word(text, p + 1, quoted, n - 1);
        ([c] + w, at)
  }

  function WordAt(text: string, at: Place, n: nat): (string, Place)
    requires at.pos <= |text| && n > 0
  {
    if at.eof then ("", at) else Word(text, at.pos, false, n)
  }

  /** At most n equal signs. */
  function Equals(text: string, p: nat, n: nat): (nat, Place)
    requires p <= |text| && n > 0
    decreases |text| - p
  {
    if p == |text| then (0, Place(p, true))
    else if text[p] == COMMENT then (0, Place(p + 1, false))
    else if text[p] != EQUAL then (0, Place(p, false))
    else if n == 1 then (1, Place(p + 1, false))
    else
      var (k, at) := Equals(text, p + 1, n - 1);
      (k + 1, at)
  }

  function EqualsAt(text: string, at: Place): (nat, Place)
    requires at.pos <= |text|
  {
    if at.eof then (0, at) else Equals(text, at.pos, MAX_EQUAL)
  }

  function RestOfLine(text: string, at: Place): Place
    requires at.pos <= |text|
  {
    if at.eof then at else Place(LineEnd(text, at.pos), !HasNewline(text, at.pos))
  }

  lemma {:induction false} WordStays(text: string, p: nat, quoted: bool, n: nat)
    requires p <= |text| && n > 0
    ensures var (w, at) := Word(text, p, quoted, n);
      && p <= at.pos <= |text| && (at.eof ==> at.pos == |text|) && |w| <= n
      && (forall i :: p <= i < at.pos ==> text[i] != '\n')
    decreases |text| - p
  {
    if p < |text| && !(text[p] == COMMENT && !quoted) {
      var c := text[p];
      if IsQuote(c) {
        WordStays(text, p + 1, !quoted, n);
      } else if !(IsWhitespace(c) || c == '\n' || c == EQUAL) && n > 1 {
        WordStays(text, p + 1, quoted, n - 1);
      }
    }
  }

  lemma {:induction false} EqualsStays(text: string, p: nat, n: nat)
    requires p <= |text| && n > 0
    ensures var (k, at) := Equals(text, p, n);
      && p <= at.pos <= |text| && (at.eof ==> at.pos == |text|)
      && (forall i :: p <= i < at.pos ==> text[i] != '\n')
    decreases |text| - p
  {
    if p < |text| && text[p] == EQUAL && n > 1 {
      EqualsStays(text, p + 1, n - 1);
    }
  }

  lemma {:induction false} BlanksStay(text: string, p: nat)
    requires p <= |text|
    ensures forall i :: p <= i < SkipBlanks(text, p) ==> text[i] != '\n'
    decreases |text| - p
  {
    if p < |text| && IsWhitespace(text[p]) {
      BlanksStay(text, p + 1);
    }
  }

  /** The places of one line: the stream has not passed its newline, and the end-of-file flag
      is only set at the end of the text. */
  ghost predicate OnLine(text: string, p: nat, at: Place) {
    && p <= at.pos <= |text| && (at.eof ==> at.pos == |text|)
    && (forall i :: p <= i < at.pos ==> text[i] != '\n')
  }

  lemma WhitespaceStays(text: string, p: nat, at: Place)
    requires OnLine(text, p, at)
    ensures OnLine(text, p, Whitespace(text, at).1)
  {
    if !at.eof {
      BlanksStay(text, at.pos);
    }
  }

  lemma WordAtStays(text: string, p: nat, at: Place, n: nat)
    requires OnLine(text, p, at) && n > 0
    ensures OnLine(text, p, WordAt(text, at, n).1)
  {
    if !at.eof {
      WordStays(text, at.pos, false, n);
    }
  }

  lemma EqualsAtStays(text: string, p: nat, at: Place)
    requires OnLine(text, p, at)
    ensures OnLine(text, p, EqualsAt(text, at).1)
  {
    if !at.eof {
      EqualsStays(text, at.pos, MAX_EQUAL);
    }
  }

  lemma {:induction false} SameLineEnd(text: string, p: nat, q: nat)
    requires p <= q <= |text| && (forall i :: p <= i < q ==> text[i] != '\n')
    ensures LineEnd(text, p) == LineEnd(text, q) && HasNewline(text, p) == HasNewline(text, q)
    decreases q - p
  {
    if p < q {
      SameLineEnd(text, p + 1, q);
    }
  }

  /** The rest of the line, from anywhere on it, is the line's end. */
  lemma RestEnds(text: string, p: nat, at: Place)
    requires OnLine(text, p, at)
    ensures RestOfLine(text, at) == Place(LineEnd(text, p), !HasNewline(text, p))
  {
    SameLineEnd(text, p, at.pos);
  }

  // One line.

  /** The pair that a line gives, if any, and where the parser stops looking at it. */
  datatype Parsed = Parsed(ok: bool, tag: string, value: string, at: Place)

  function Assignment(text: string, p: nat, tagMax: nat, valueMax: nat): (r: Parsed)
    requires p <= |text| && tagMax > 0 && valueMax > 0
    ensures OnLine(text, p, r.at)
  {
    var start := Place(p, false);
    var (some, a) := Whitespace(text, start);
    WhitespaceStays(text, p, start);
    if !some then Parsed(false, "", "", a)
    else
      var (tag, b) := WordAt(text, a, tagMax);
      WordAtStays(text, p, a, tagMax);
      if tag == "" then Parsed(false, "", "", b) else AfterTag(text, p, tag, b, valueMax)
  }

  function AfterTag(text: string, p: nat, tag: string, b: Place, valueMax: nat): (r: Parsed)
    requires OnLine(text, p, b) && valueMax > 0
    ensures OnLine(text, p, r.at)
  {
    var (more, c) := Whitespace(text, b);
    WhitespaceStays(text, p, b);
    if !more then Parsed(false, tag, "", c)
    else
      var (signs, d) := EqualsAt(text, c);
      EqualsAtStays(text, p, c);
      if signs != 1 then Parsed(false, tag, "", d) else AfterEqual(text, p, tag, d, valueMax)
  }

  function AfterEqual(text: string, p: nat, tag: string, d: Place, valueMax: nat): (r: Parsed)
    requires OnLine(text, p, d) && valueMax > 0
    ensures OnLine(text, p, r.at)
  {
    var (more, e) := Whitespace(text, d);
    WhitespaceStays(text, p, d);
    if !more then Parsed(false, tag, "", e)
    else
      var (value, f) := WordAt(text, e, valueMax);
      WordAtStays(text, p, e, valueMax);
      Parsed(value != "", tag, value, f)
  }

  /** What parse_line returns and where it leaves the stream. */
  function Line(text: string, p: nat, tagMax: nat, valueMax: nat): Parsed
    requires p <= |text| && tagMax > 0 && valueMax > 0
  {
    var r := Assignment(text, p, tagMax, valueMax);
    r.(at := RestOfLine(text, r.at))
  }

  /** Whatever the line holds, exactly it is consumed, through its newline or to the end of
      the file, and the end is noticed exactly when there was no newline. */
  lemma LineConsumed(text: string, p: nat, tagMax: nat, valueMax: nat)
    requires p <= |text| && tagMax > 0 && valueMax > 0
    ensures Line(text, p, tagMax, valueMax).at == Place(LineEnd(text, p), !HasNewline(text, p))
  {
    RestEnds(text, p, Assignment(text, p, tagMax, valueMax).at);
  }

  // Formatting and parsing back.

  predicate Blank(s: string) {
    forall i :: 0 <= i < |s| ==> IsWhitespace(s[i])
  }

  /** Characters that a word keeps; a quoted one keeps the comment character too. */
  predicate Plain(s: string, quoted: bool) {
    forall i :: 0 <= i < |s| ==>
      !IsWhitespace(s[i]) && s[i] != '\n' && s[i] != EQUAL && !IsQuote(s[i]) && (s[i] != COMMENT || quoted)
  }

  /** What may follow a value: nothing, or a blank or a comment and anything. */
  predicate Tail(s: string) {
    '\n' !in s && (s == "" || IsWhitespace(s[0]) || s[0] == COMMENT)
  }

  /** A word, bare or between quotes. */
  function Quoted(value: string, quote: Option<char>): string {
    match quote case None => value case Some(q) => [q] + value + [q]
  }

  function Format(b1: string, tag: string, b2: string, b3: string, value: string, quote: Option<char>, tail: string): string {
    b1 + tag + b2 + "=" + b3 + Quoted(value, quote) + tail
  }

  predicate At(text: string, p: nat, s: string) {
    p + |s| <= |text| && text[p..p + |s|] == s
  }

  lemma AtParts(text: string, p: nat, s: string, t: string)
    requires At(text, p, s + t)
    ensures At(text, p, s) && At(text, p + |s|, t)
  {
    var u := text[p..p + |s + t|];
    assert text[p..p + |s|] == u[..|s|] == s;
    assert text[p + |s|..p + |s| + |t|] == u[|s|..] == t;
  }

  lemma AtChar(text: string, p: nat, s: string, i: nat)
    requires At(text, p, s) && i < |s|
    ensures text[p + i] == s[i]
  {
    assert text[p + i] == text[p..p + |s|][i];
  }

  lemma {:induction false} BlanksOver(text: string, p: nat, b: string)
    requires At(text, p, b) && Blank(b)
    ensures SkipBlanks(text, p) == SkipBlanks(text, p + |b|)
    decreases |b|
  {
    if b != "" {
      AtChar(text, p, b, 0);
      assert text[p + 1..p + 1 + |b[1..]|] == text[p..p + |b|][1..];
      BlanksOver(text, p + 1, b[1..]);
    }
  }

  lemma {:induction false} WordOver(text: string, p: nat, w: string, quoted: bool, n: nat)
    requires At(text, p, w) && Plain(w, quoted) && |w| <= n && n > 0
    ensures Word(text, p, quoted, n) ==
      if |w| == n then (w, Place(p + n, false))
      else var (v, at) := Word(text, p + |w|, quoted, n - |w|); (w + v, at)
    decreases |w|
  {
    if w == "" {
      assert "" + Word(text, p, quoted, n).0 == Word(text, p, quoted, n).0;
    } else {
      AtChar(text, p, w, 0);
      if n > 1 {
        assert text[p + 1..p + 1 + |w[1..]|] == text[p..p + |w|][1..];
        WordOver(text, p + 1, w[1..], quoted, n - 1);
        assert w == [w[0]] + w[1..];
        if |w| < n {
          var (v, at) := Word(text, p + |w|, quoted, n - |w|);
          assert [w[0]] + (w[1..] + v) == w + v;
        }
      } else {
        assert w == [w[0]];
      }
    }
  }

  /** A word that stops here is complete. */
  predicate Stops(text: string, p: nat)
    requires p <= |text|
  {
    p == |text| || text[p] == COMMENT || IsWhitespace(text[p]) || text[p] == '\n' || text[p] == EQUAL
  }

  lemma BareWord(text: string, p: nat, w: string, n: nat)
    requires At(text, p, w) && Plain(w, false) && 0 < |w| <= n && Stops(text, p + |w|)
    ensures Word(text, p, false, n).0 == w
    ensures var at := Word(text, p, false, n).1;
      at.pos == p + |w| || (p + |w| < |text| && text[p + |w|] == COMMENT)
    ensures p + |w| < |text| ==> !Word(text, p, false, n).1.eof
  {
    WordOver(text, p, w, false, n);
    if |w| < n {
      assert Word(text, p + |w|, false, n - |w|).0 == "";
      assert w + "" == w;
    }
  }

  lemma QuotedWord(text: string, p: nat, w: string, q: char, n: nat)
    requires At(text, p, Quoted(w, Some(q))) && IsQuote(q) && Plain(w, true) && 0 < |w| <= n
    requires Stops(text, p + |w| + 2)
    ensures Word(text, p, false, n).0 == w
  {
    var s := Quoted(w, Some(q));
    AtChar(text, p, s, 0);
    AtParts(text, p, [q], w + [q]);
    assert s == [q] + (w + [q]);
    AtParts(text, p + 1, w, [q]);
    WordOver(text, p + 1, w, true, n);
    if |w| < n {
      AtChar(text, p + 1 + |w|, [q], 0);
      assert Word(text, p + 1 + |w|, true, n - |w|) == Word(text, p + 2 + |w|, false, n - |w|);
      assert Word(text, p + 2 + |w|, false, n - |w|).0 == "";
      assert w + "" == w;
    }
  }

  lemma NotBlankNext(text: string, p: nat, w: string)
    requires At(text, p, w) && w != "" && !IsWhitespace(w[0])
    ensures SkipBlanks(text, p) == p && p < |text| && text[p] == w[0]
  {
    AtChar(text, p, w, 0);
  }

  predicate Follows(text: string, p: nat)
    requires p <= |text|
  {
    p == |text| || text[p] == '\n'
  }

  /** A tag and a value that a line can hold. */
  predicate Admissible(tag: string, value: string, quote: Option<char>, tagMax: nat, valueMax: nat) {
    && 0 < |tag| <= tagMax && Plain(tag, false)
    && 0 < |value| <= valueMax && Plain(value, quote.Some?)
    && (quote.Some? ==> IsQuote(quote.value))
  }

  /** A line with any admissible pair, any blanks and any comment parses back to the pair, and
      is consumed through its end. */
  lemma FormatParses(text: string, p: nat, b1: string, tag: string, b2: string, b3: string, value: string,
                     quote: Option<char>, tail: string, tagMax: nat, valueMax: nat)
    requires Admissible(tag, value, quote, tagMax, valueMax)
    requires Blank(b1) && Blank(b2) && Blank(b3) && Tail(tail)
    requires At(text, p, Format(b1, tag, b2, b3, value, quote, tail))
    requires Follows(text, p + |Format(b1, tag, b2, b3, value, quote, tail)|)
    ensures var r := Line(text, p, tagMax, valueMax);
      r.ok && r.tag == tag && r.value == value && r.at == Place(LineEnd(text, p), !HasNewline(text, p))
  {
    FormatPlaces(text, p, b1, tag, b2, b3, value, quote, tail);
    PlacedParses(text, p, b1, tag, b2, b3, value, quote, tail, tagMax, valueMax);
    LineConsumed(text, p, tagMax, valueMax);
  }

  lemma FirstAfterEqual(b3: string, value: string, quote: Option<char>)
    requires Blank(b3) && value != "" && Plain(value, quote.Some?) && (quote.Some? ==> IsQuote(quote.value))
    ensures var s := b3 + Quoted(value, quote); s != "" && s[0] != EQUAL && s[0] != COMMENT
  {
  }

  lemma FirstAfterTag(b2: string)
    requires Blank(b2)
    ensures var s := b2 + "="; s != "" && (IsWhitespace(s[0]) || s[0] == EQUAL)
  {
  }

  lemma TagPlaced(text: string, p: nat, b1: string, tag: string, b2: string, tagMax: nat)
    requires At(text, p, b1) && At(text, p + |b1|, tag) && At(text, p + |b1| + |tag|, b2 + "=")
    requires Blank(b1) && Blank(b2) && 0 < |tag| <= tagMax && Plain(tag, false)
    ensures Whitespace(text, Place(p, false)) == (true, Place(p + |b1|, false))
    ensures WordAt(text, Place(p + |b1|, false), tagMax) == (tag, Place(p + |b1| + |tag|, false))
    ensures p + |b1| + |tag| <= |text|
  {
    FirstAfterTag(b2);
    TagParses(text, p, b1, tag, b2 + "=", tagMax);
  }

  lemma EqualPlaced(text: string, p1: nat, b2: string, b3: string, value: string, quote: Option<char>)
    requires At(text, p1, b2) && At(text, p1 + |b2|, "=") && At(text, p1 + |b2| + 1, b3 + Quoted(value, quote))
    requires Blank(b2) && Blank(b3) && value != "" && Plain(value, quote.Some?) && (quote.Some? ==> IsQuote(quote.value))
    ensures Whitespace(text, Place(p1, false)) == (true, Place(p1 + |b2|, false))
    ensures EqualsAt(text, Place(p1 + |b2|, false)) == (1, Place(p1 + |b2| + 1, false))
    ensures p1 + |b2| + 1 <= |text|
  {
    FirstAfterEqual(b3, value, quote);
    EqualParses(text, p1, b2, b3 + Quoted(value, quote));
  }

  lemma PlacedParses(text: string, p: nat, b1: string, tag: string, b2: string, b3: string, value: string,
                     quote: Option<char>, tail: string, tagMax: nat, valueMax: nat)
    requires Admissible(tag, value, quote, tagMax, valueMax)
    requires Blank(b1) && Blank(b2) && Blank(b3) && Tail(tail)
    requires Placed(text, p, b1, tag, b2, b3, value, quote, tail)
    requires Follows(text, p + |b1| + |tag| + |b2| + 1 + |b3| + |Quoted(value, quote)| + |tail|)
    ensures p <= |text|
    ensures var r := Assignment(text, p, tagMax, valueMax); r.ok && r.tag == tag && r.value == value
  {
    var p1 := p + |b1| + |tag|;
    var p2 := p1 + |b2| + 1;
    TagPlaced(text, p, b1, tag, b2, tagMax);
    EqualPlaced(text, p1, b2, b3, value, quote);
    ValueParses(text, p2, b3, value, quote, tail, valueMax);
    AssignmentIs(text, p, tag, Place(p + |b1|, false), Place(p1, false), Place(p1 + |b2|, false),
      Place(p2, false), Place(p2 + |b3|, false), tagMax, valueMax);
  }

  /** The parser's way through a complete assignment. */
  lemma AssignmentIs(text: string, p: nat, tag: string, a: Place, b: Place, c: Place, d: Place, e: Place,
                     tagMax: nat, valueMax: nat)
    requires p <= |text| && tagMax > 0 && valueMax > 0
    requires Whitespace(text, Place(p, false)) == (true, a)
    requires a.pos <= |text| && tag != "" && WordAt(text, a, tagMax) == (tag, b)
    requires b.pos <= |text| && Whitespace(text, b) == (true, c)
    requires c.pos <= |text| && EqualsAt(text, c) == (1, d)
    requires d.pos <= |text| && Whitespace(text, d) == (true, e) && e.pos <= |text|
    ensures var r, value := Assignment(text, p, tagMax, valueMax), WordAt(text, e, valueMax).0;
      r.ok == (value != "") && r.tag == tag && r.value == value
  {
    WhitespaceStays(text, p, Place(p, false));
    WordAtStays(text, p, a, tagMax);
    WhitespaceStays(text, p, b);
    EqualsAtStays(text, p, c);
    assert Assignment(text, p, tagMax, valueMax) == AfterTag(text, p, tag, b, valueMax);
    assert AfterTag(text, p, tag, b, valueMax) == AfterEqual(text, p, tag, d, valueMax);
  }

  lemma FormatSplit(b1: string, tag: string, b2: string, b3: string, value: string, quote: Option<char>, tail: string)
    ensures var v := Quoted(value, quote);
      var s2 := b3 + (v + tail);
      && s2 == (b3 + v) + tail
      && Format(b1, tag, b2, b3, value, quote, tail) == b1 + (tag + ((b2 + "=") + s2))
      && |Format(b1, tag, b2, b3, value, quote, tail)| == |b1| + |tag| + |b2| + 1 + |b3| + |v| + |tail|
  {
  }

  /** Where the parts of a formatted line are. */
  predicate Placed(text: string, p: nat, b1: string, tag: string, b2: string, b3: string, value: string,
                   quote: Option<char>, tail: string)
  {
    var p1 := p + |b1| + |tag|;
    && At(text, p, b1) && At(text, p + |b1|, tag)
    && At(text, p1, b2 + "=") && At(text, p1, b2) && At(text, p1 + |b2|, "=")
    && At(text, p1 + |b2| + 1, b3 + Quoted(value, quote)) && At(text, p1 + |b2| + 1, b3)
    && At(text, p1 + |b2| + 1 + |b3|, Quoted(value, quote) + tail)
  }

  lemma FormatPlaces(text: string, p: nat, b1: string, tag: string, b2: string, b3: string, value: string,
                     quote: Option<char>, tail: string)
    requires At(text, p, Format(b1, tag, b2, b3, value, quote, tail))
    ensures Placed(text, p, b1, tag, b2, b3, value, quote, tail)
    ensures |Format(b1, tag, b2, b3, value, quote, tail)| ==
      |b1| + |tag| + |b2| + 1 + |b3| + |Quoted(value, quote)| + |tail|
  {
    var p1, v := p + |b1| + |tag|, Quoted(value, quote);
    var s2 := b3 + (v + tail);
    var s1 := (b2 + "=") + s2;
    FormatSplit(b1, tag, b2, b3, value, quote, tail);
    AtParts(text, p, b1, tag + s1);
    AtParts(text, p + |b1|, tag, s1);
    AtParts(text, p1, b2 + "=", s2);
    AtParts(text, p1, b2, "=");
    AtParts(text, p1 + |b2| + 1, b3, v + tail);
    AtParts(text, p1 + |b2| + 1, b3 + v, tail);
  }

  lemma TagParses(text: string, p: nat, b1: string, tag: string, s1: string, tagMax: nat)
    requires At(text, p, b1) && At(text, p + |b1|, tag) && At(text, p + |b1| + |tag|, s1)
    requires Blank(b1) && 0 < |tag| <= tagMax && Plain(tag, false)
    requires s1 != "" && (IsWhitespace(s1[0]) || s1[0] == EQUAL)
    ensures Whitespace(text, Place(p, false)) == (true, Place(p + |b1|, false))
    ensures WordAt(text, Place(p + |b1|, false), tagMax) == (tag, Place(p + |b1| + |tag|, false))
    ensures p + |b1| + |tag| <= |text|
  {
    BlanksOver(text, p, b1);
    NotBlankNext(text, p + |b1|, tag);
    AtChar(text, p + |b1| + |tag|, s1, 0);
    BareWord(text, p + |b1|, tag, tagMax);
  }

  lemma EqualParses(text: string, p1: nat, b2: string, s2: string)
    requires At(text, p1, b2) && At(text, p1 + |b2|, "=") && At(text, p1 + |b2| + 1, s2)
    requires Blank(b2) && s2 != "" && s2[0] != EQUAL && s2[0] != COMMENT
    ensures Whitespace(text, Place(p1, false)) == (true, Place(p1 + |b2|, false))
    ensures EqualsAt(text, Place(p1 + |b2|, false)) == (1, Place(p1 + |b2| + 1, false))
    ensures p1 + |b2| + 1 <= |text|
  {
    BlanksOver(text, p1, b2);
    NotBlankNext(text, p1 + |b2|, "=");
    AtChar(text, p1 + |b2| + 1, s2, 0);
    assert Equals(text, p1 + |b2| + 1, 1) == (0, Place(p1 + |b2| + 1, false));
  }

  lemma ValueParses(text: string, p2: nat, b3: string, value: string, quote: Option<char>, tail: string, valueMax: nat)
    requires At(text, p2, b3) && At(text, p2 + |b3|, Quoted(value, quote) + tail)
    requires Blank(b3) && Tail(tail) && Follows(text, p2 + |b3| + |Quoted(value, quote)| + |tail|)
    requires 0 < |value| <= valueMax && Plain(value, quote.Some?) && (quote.Some? ==> IsQuote(quote.value))
    ensures Whitespace(text, Place(p2, false)) == (true, Place(p2 + |b3|, false))
    ensures p2 + |b3| <= |text| && WordAt(text, Place(p2 + |b3|, false), valueMax).0 == value
  {
    var at, word := p2 + |b3|, Quoted(value, quote);
    BlanksOver(text, p2, b3);
    AtParts(text, at, word, tail);
    NotBlankNext(text, at, word);
    if tail != "" {
      AtChar(text, at + |word|, tail, 0);
    }
    if quote.Some? {
      QuotedWord(text, at, value, quote.value, valueMax);
    } else {
      BareWord(text, at, value, valueMax);
    }
  }

  // What a pair is read from.

  function Unquoted(s: string): string {
    if s == "" then "" else (if IsQuote(s[0]) then "" else [s[0]]) + Unquoted(s[1..])
  }

  predicate WordChars(text: string, p: nat, q: nat)
    requires q <= |text|
  {
    forall i :: p <= i < q ==> text[i] != EQUAL && text[i] != '\n' && !IsWhitespace(text[i])
  }

  /** A part that ends at q, or swallows a comment character there. */
  predicate EndsAt(text: string, q: nat, pos: nat) {
    q <= |text| && (pos == q || (q < |text| && text[q] == COMMENT && pos == q + 1))
  }

  lemma {:induction false} WordFrom(text: string, p: nat, quoted: bool, n: nat) returns (q: nat)
    requires p <= |text| && n > 0
    ensures p <= q <= |text| && WordChars(text, p, q) && EndsAt(text, q, Word(text, p, quoted, n).1.pos)
    ensures Word(text, p, quoted, n).0 == Unquoted(text[p..q]) && |Unquoted(text[p..q])| <= n
    decreases |text| - p
  {
    q := p;
    if p < |text| && !(text[p] == COMMENT && !quoted) {
      var c := text[p];
      if IsQuote(c) {
        q := WordFrom(text, p + 1, !quoted, n);
        assert text[p..q][1..] == text[p + 1..q];
      } else if !(IsWhitespace(c) || c == '\n' || c == EQUAL) {
        if n == 1 {
          q := p + 1;
          assert text[p..q] == [c] && Unquoted([c]) == [c] + Unquoted([c][1..]);
        } else {
          q := WordFrom(text, p + 1, quoted, n - 1);
          assert text[p..q][1..] == text[p + 1..q];
        }
      }
    }
  }

  lemma {:induction false} BlanksFrom(text: string, p: nat)
    requires p <= |text|
    ensures forall i :: p <= i < SkipBlanks(text, p) ==> IsWhitespace(text[i])
    decreases |text| - p
  {
    if p < |text| && IsWhitespace(text[p]) {
      BlanksFrom(text, p + 1);
    }
  }

  predicate Blanks(text: string, p: nat, q: nat) {
    p <= q <= |text| && forall i :: p <= i < q ==> IsWhitespace(text[i])
  }

  /** What a line that gives a pair looks like: a tag, one equal sign that no other follows,
      and a value, with blanks around them; the equal sign is the first of the line. */
  predicate Reads(text: string, p: nat, tag: string, value: string, a: nat, b: nat, c: nat, e: nat, f: nat) {
    && Blanks(text, p, a) && a < b <= |text| && WordChars(text, a, b) && tag == Unquoted(text[a..b])
    && (Blanks(text, b, c) || (b < |text| && text[b] == COMMENT && Blanks(text, b + 1, c)))
    && c + 1 < |text| && text[c] == EQUAL && text[c + 1] != EQUAL
    && (Blanks(text, c + 1, e) || (text[c + 1] == COMMENT && Blanks(text, c + 2, e)))
    && e < f <= |text| && WordChars(text, e, f) && value == Unquoted(text[e..f])
  }

  lemma OneSign(text: string, c: nat, d: Place)
    requires c <= |text| && Equals(text, c, MAX_EQUAL) == (1, d) && d.pos <= |text| && !d.eof
    ensures c < |text| && text[c] == EQUAL && EndsAt(text, c + 1, d.pos)
    ensures c + 1 < |text| && text[c + 1] != EQUAL
  {
    assert c < |text| && text[c] == EQUAL;
    assert Equals(text, c, MAX_EQUAL).0 == Equals(text, c + 1, 1).0 + 1;
  }

  /** The tag, and where the parser goes on behind it. */
  lemma TagFrom(text: string, p: nat, tagMax: nat, valueMax: nat) returns (a: nat, b: nat, at: Place)
    requires p <= |text| && tagMax > 0 && valueMax > 0 && Assignment(text, p, tagMax, valueMax).ok
    ensures var r := Assignment(text, p, tagMax, valueMax);
      && OnLine(text, p, at) && r == AfterTag(text, p, r.tag, at, valueMax)
      && Blanks(text, p, a) && a < b <= |text| && WordChars(text, a, b) && EndsAt(text, b, at.pos)
      && r.tag == Unquoted(text[a..b]) && 0 < |r.tag| <= tagMax
  {
    BlanksFrom(text, p);
    a := SkipBlanks(text, p);
    b := WordFrom(text, a, false, tagMax);
    var start := Place(p, false);
    WhitespaceStays(text, p, start);
    var (some, place) := Whitespace(text, start);
    WordAtStays(text, p, place, tagMax);
    at := WordAt(text, place, tagMax).1;
  }

  /** The equal sign behind the tag. */
  lemma SignFrom(text: string, p: nat, tag: string, b: Place, valueMax: nat) returns (c: nat, at: Place)
    requires OnLine(text, p, b) && valueMax > 0 && AfterTag(text, p, tag, b, valueMax).ok
    ensures OnLine(text, p, at) && !at.eof && AfterTag(text, p, tag, b, valueMax) == AfterEqual(text, p, tag, at, valueMax)
    ensures Blanks(text, b.pos, c) && c + 1 < |text| && text[c] == EQUAL && text[c + 1] != EQUAL
    ensures EndsAt(text, c + 1, at.pos)
  {
    BlanksFrom(text, b.pos);
    c := SkipBlanks(text, b.pos);
    WhitespaceStays(text, p, b);
    var place := Whitespace(text, b).1;
    EqualsAtStays(text, p, place);
    at := EqualsAt(text, place).1;
    OneSign(text, c, at);
  }

  /** The value behind the equal sign. */
  lemma ValueFrom(text: string, p: nat, tag: string, d: Place, valueMax: nat) returns (e: nat, f: nat)
    requires OnLine(text, p, d) && valueMax > 0 && AfterEqual(text, p, tag, d, valueMax).ok
    ensures var r := AfterEqual(text, p, tag, d, valueMax);
      && r.tag == tag && Blanks(text, d.pos, e) && e < f <= |text| && WordChars(text, e, f)
      && r.value == Unquoted(text[e..f]) && 0 < |r.value| <= valueMax
  {
    BlanksFrom(text, d.pos);
    e := SkipBlanks(text, d.pos);
    f := WordFrom(text, e, false, valueMax);
  }

  /** Every pair comes from such a line. */
  lemma PairFrom(text: string, p: nat, tagMax: nat, valueMax: nat) returns (a: nat, b: nat, c: nat, e: nat, f: nat)
    requires p <= |text| && tagMax > 0 && valueMax > 0 && Line(text, p, tagMax, valueMax).ok
    ensures var r := Line(text, p, tagMax, valueMax);
      Reads(text, p, r.tag, r.value, a, b, c, e, f) && 0 < |r.tag| <= tagMax && 0 < |r.value| <= valueMax
  {
    var r := Assignment(text, p, tagMax, valueMax);
    var behindTag, behindSign: Place;
    a, b, behindTag := TagFrom(text, p, tagMax, valueMax);
    c, behindSign := SignFrom(text, p, r.tag, behindTag, valueMax);
    e, f := ValueFrom(text, p, r.tag, behindSign, valueMax);
  }

  lemma FirstSign(text: string, p: nat, tag: string, value: string, a: nat, b: nat, c: nat, e: nat, f: nat)
    requires Reads(text, p, tag, value, a, b, c, e, f)
    ensures p <= c && c + 1 < |text| && text[c] == EQUAL && text[c + 1] != EQUAL
    ensures forall i :: p <= i < c ==> text[i] != EQUAL && text[i] != '\n'
  {
  }

  /** A line whose first equal sign is followed by another, or that has none, gives no pair. */
  lemma NoPair(text: string, p: nat, tagMax: nat, valueMax: nat, c: nat)
    requires p <= c <= |text| && tagMax > 0 && valueMax > 0
    requires forall i :: p <= i < c ==> text[i] != EQUAL
    requires c == |text| || text[c] == '\n' || (c + 1 < |text| && text[c] == EQUAL && text[c + 1] == EQUAL)
    ensures !Line(text, p, tagMax, valueMax).ok
  {
    if Line(text, p, tagMax, valueMax).ok {
      var a, b, sign, e, f := PairFrom(text, p, tagMax, valueMax);
      var r := Line(text, p, tagMax, valueMax);
      FirstSign(text, p, r.tag, r.value, a, b, sign, e, f);
    }
  }

  // The stream.

  class File {
    const text: string
    var pos: nat
    var eof: bool

    constructor (t: string)
      ensures text == t && pos == 0 && !eof
    {
      text, pos, eof := t, 0, false;
    }

    ghost predicate Valid()
      reads this
    {
      pos <= |text| && (eof ==> pos == |text|) && forall i :: 0 <= i < |text| ==> text[i] < 128 as char
    }

    function Here(): Place
      reads this
    {
      Place(pos, eof)
    }

    method Fgetc() returns (c: Option<char>)
      requires Valid()
      modifies this
      ensures Valid()
      ensures old(pos) < |text| ==> c == Some(text[old(pos)]) && pos == old(pos) + 1 && eof == old(eof)
      ensures old(pos) == |text| ==> c == None && pos == old(pos) && eof
    {
      if pos < |text| {
        c := Some(text[pos]);
        pos := pos + 1;
      } else {
        c := None;
        eof := true;
      }
    }

    /** Pushing back the end of the file does nothing. */
    method Ungetc(c: Option<char>)
      requires Valid() && (c.Some? ==> pos > 0 && text[pos - 1] == c.value)
      modifies this
      ensures Valid()
      ensures c.Some? ==> pos == old(pos) - 1 && !eof
      ensures c.None? ==> pos == old(pos) && eof == old(eof)
    {
      if c.Some? {
        pos := pos - 1;
        eof := false;
      }
    }

    method ConsumeLine()
      requires Valid()
      modifies this
      ensures Valid() && Here() == RestOfLine(text, old(Here()))
    {
      while !eof
        invariant Valid() && RestOfLine(text, Here()) == RestOfLine(text, old(Here()))
        decreases |text| - pos, !eof
      {
        ghost var p := pos;
        var c := Fgetc();
        if c == None || c == Some('\n') {
          return;
        }
        SameLineEnd(text, p, pos);
      }
    }

    method ConsumeWhitespace() returns (some: bool)
      requires Valid()
      modifies this
      ensures Valid() && (some, Here()) == Whitespace(text, old(Here()))
    {
      while !eof
        invariant Valid() && (eof ==> old(eof)) && (old(eof) ==> Here() == old(Here()))
        invariant !eof ==> SkipBlanks(text, pos) == SkipBlanks(text, old(pos))
        decreases |text| - pos
      {
        var c := Fgetc();
        if c == Some(COMMENT) {
          return false;
        }
        if c.None? || !IsWhitespace(c.value) {
          Ungetc(c);
          return true;
        }
      }
      return false;
    }

    method ParseWord(n: nat) returns (word: string)
      requires Valid() && n > 0
      modifies this
      ensures Valid() && (word, Here()) == WordAt(text, old(Here()), n)
    {
      word := "";
      var quoted := false;
      if eof {
        return;
      }
      assert word + Word(text, pos, false, n).0 == Word(text, pos, false, n).0;
      while !eof
        invariant Valid() && !eof && |word| < n
        invariant Word(text, old(pos), false, n) ==
          var (w, at) := Word(text, pos, quoted, n - |word|); (word + w, at)
        decreases |text| - pos
      {
        ghost var w := Word(text, pos, quoted, n - |word|).0;
        assert word + "" == word;
        var c := Fgetc();
        if c == Some(COMMENT) && !quoted {
          break;
        }
        if c.Some? && IsQuote(c.value) {
          quoted := !quoted;
          continue;
        }
        if c.None? || IsWhitespace(c.value) || c.value == '\n' || c.value == EQUAL {
          Ungetc(c);
          break;
        }
        assert word + ([c.value] + w[1..]) == word + [c.value] + w[1..];
        word := word + [c.value];
        if |word| == n {
          break;
        }
      }
    }

    method ParseEqual(n: nat) returns (signs: nat)
      requires Valid() && n > 0
      modifies this
      ensures Valid() && (signs, Here()) == if old(eof) then (0, old(Here())) else Equals(text, old(pos), n)
    {
      signs := 0;
      if eof {
        return;
      }
      while !eof
        invariant Valid() && !eof && signs < n
        invariant Equals(text, old(pos), n) == var (k, at) := Equals(text, pos, n - signs); (signs + k, at)
        decreases |text| - pos
      {
        var c := Fgetc();
        if c == Some(COMMENT) {
          break;
        }
        if c != Some(EQUAL) {
          Ungetc(c);
          break;
        }
        signs := signs + 1;
        if signs == n {
          break;
        }
      }
    }

    /** The assignment on the line, without the rest of the line. */
    method ParseAssignment(tagMax: nat, valueMax: nat) returns (ok: bool, tag: string, value: string)
      requires Valid() && !eof && tagMax > 0 && valueMax > 0
      modifies this
      ensures Valid() && Parsed(ok, tag, value, Here()) == Assignment(text, old(pos), tagMax, valueMax)
    {
      ok, tag, value := false, "", "";
      var some := ConsumeWhitespace();
      if !some {
        return;
      }
      tag := ParseWord(tagMax);
      if tag == "" {
        return;
      }
      some := ConsumeWhitespace();
      if !some {
        return;
      }
      var signs := ParseEqual(MAX_EQUAL);
      if signs != 1 {
        return;
      }
      some := ConsumeWhitespace();
      if !some {
        return;
      }
      value := ParseWord(valueMax);
      ok := value != "";
    }

    method ParseLine(tagMax: nat, valueMax: nat) returns (ok: bool, tag: string, value: string)
      requires Valid() && !eof && tagMax > 0 && valueMax > 0
      modifies this
      ensures Valid() && Parsed(ok, tag, value, Here()) == Line(text, old(pos), tagMax, valueMax)
    {
      ok, tag, value := ParseAssignment(tagMax, valueMax);
      ConsumeLine();
    }

    /** One turn of the loop over a file. */
    method ReadLine(tagMax: nat, valueMax: nat, pairs: seq<(string, string)>) returns (more: seq<(string, string)>)
      requires Valid() && !eof && tagMax > 0 && valueMax > 0
      modifies this
      ensures Valid() && Here() == Place(LineEnd(text, old(pos)), !HasNewline(text, old(pos)))
      ensures more + (if eof then [] else Pairs(text, pos, tagMax, valueMax)) == pairs + Pairs(text, old(pos), tagMax, valueMax)
    {
      LineConsumed(text, pos, tagMax, valueMax);
      PairsStep(text, pos, tagMax, valueMax, pairs);
      var ok, tag, value := ParseLine(tagMax, valueMax);
      more := pairs;
      if ok {
        more := pairs + [(tag, value)];
      }
    }

    /** The loop over a file, which reads a line at a time until the end is noticed. */
    method ReadFile(tagMax: nat, valueMax: nat) returns (pairs: seq<(string, string)>)
      requires Valid() && !eof && pos == 0 && tagMax > 0 && valueMax > 0
      modifies this
      ensures Valid() && eof
      ensures pairs == Pairs(text, 0, tagMax, valueMax)
    {
      pairs := [];
      while !eof
        invariant Valid()
        invariant pairs + (if eof then [] else Pairs(text, pos, tagMax, valueMax)) == Pairs(text, 0, tagMax, valueMax)
        decreases |text| - pos, !eof
      {
        NewlineMoves(text, pos);
        pairs := ReadLine(tagMax, valueMax, pairs);
      }
    }
  }

  lemma PairsStep(text: string, p: nat, tagMax: nat, valueMax: nat, pairs: seq<(string, string)>)
    requires p <= |text| && tagMax > 0 && valueMax > 0
    ensures var r := Line(text, p, tagMax, valueMax);
      var so := if r.ok then pairs + [(r.tag, r.value)] else pairs;
      so + (if HasNewline(text, p) then Pairs(text, LineEnd(text, p), tagMax, valueMax) else []) ==
        pairs + Pairs(text, p, tagMax, valueMax)
  {
    NewlineMoves(text, p);
  }

  lemma {:induction false} NewlineMoves(text: string, p: nat)
    requires p <= |text|
    ensures HasNewline(text, p) ==> LineEnd(text, p) > p
    ensures !HasNewline(text, p) ==> LineEnd(text, p) == |text|
    decreases |text| - p
  {
    if p < |text| && text[p] != '\n' {
      NewlineMoves(text, p + 1);
      SameLineEnd(text, p, p + 1);
    }
  }

  /** The pairs of all lines from p on. */
  function Pairs(text: string, p: nat, tagMax: nat, valueMax: nat): seq<(string, string)>
    requires p <= |text| && tagMax > 0 && valueMax > 0
    decreases |text| - p
  {
    var r := Line(text, p, tagMax, valueMax);
    var first := if r.ok then [(r.tag, r.value)] else [];
    NewlineMoves(text, p);
    if HasNewline(text, p) then first + Pairs(text, LineEnd(text, p), tagMax, valueMax) else first
  }
}
