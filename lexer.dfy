/** Lexical primitives of the PDL grammar (src/parse.rs:38-64, 392-401) and
    the nom parsers they are made of (`char`, `tag`, `take_while`,
    `take_until`, `is_a`, `recognize`), plus `str::trim`. */
module Lexer {
  import opened Wrappers
  import opened Combinators

  /** Rust's `char::is_whitespace`: the Unicode White_Space property. */
  predicate IsWhitespace(ch: char) {
    || '\t' <= ch <= '\r'
    || ch == ' '
    || ch == '\U{85}'
    || ch == '\U{A0}'
    || ch == '\U{1680}'
    || '\U{2000}' <= ch <= '\U{200A}'
    || ch == '\U{2028}'
    || ch == '\U{2029}'
    || ch == '\U{202F}'
    || ch == '\U{205F}'
    || ch == '\U{3000}'
  }

  predicate NotWhitespace(ch: char) {
    !IsWhitespace(ch)
  }

  predicate IsDigit(ch: char) {
    '0' <= ch <= '9'
  }

  predicate IsBlank(ch: char) {
    ch == ' ' || ch == '\t'
  }

  predicate NotNewline(ch: char) {
    ch != '\n'
  }

  /** A token: a run of characters none of which is whitespace. */
  predicate IsToken(s: string) {
    forall k | 0 <= k < |s| :: NotWhitespace(s[k])
  }

  /** Length of the longest run of characters satisfying `pred` from `i` on. */
  function Span(pred: char -> bool, text: string, i: nat): (n: nat)
    requires i <= |text|
    ensures i + n <= |text|
    ensures forall k | i <= k < i + n :: pred(text[k])
    ensures i + n < |text| ==> !pred(text[i + n])
    decreases |text| - i
  {
    if i == |text| || !pred(text[i]) then 0 else 1 + Span(pred, text, i + 1)
  }

  /** Length of the longest suffix of `s` whose characters all satisfy `pred`. */
  function SpanBack(pred: char -> bool, s: string): (n: nat)
    ensures n <= |s|
    ensures forall k | |s| - n <= k < |s| :: pred(s[k])
    ensures n < |s| ==> !pred(s[|s| - n - 1])
  {
    if s == [] || !pred(s[|s| - 1]) then 0 else 1 + SpanBack(pred, s[..|s| - 1])
  }

  /** `take_while` (complete): the longest run satisfying `pred`; never fails. */
  function TakeWhile(pred: char -> bool, c: Input): (r: Option<Parsed<string>>)
    ensures r.Some? && Advances(r.value.rest, c)
    ensures r.value.value == c.text[c.pos..r.value.rest.pos]
    ensures forall k | 0 <= k < |r.value.value| :: pred(r.value.value[k])
    ensures r.value.rest.pos < |c.text| ==> !pred(c.text[r.value.rest.pos])
  {
    var n := Span(pred, c.text, c.pos);
    Some(Parsed(c.text[c.pos..c.pos + n], Cursor(c.text, c.pos + n)))
  }

  /** `take_until("\n")` (complete): the text before the next line feed;
      fails when no line feed follows. */
  function TakeUntilNewline(c: Input): (r: Option<Parsed<string>>)
    ensures r.Some? <==> exists k | c.pos <= k < |c.text| :: c.text[k] == '\n'
    ensures r.Some? ==> Advances(r.value.rest, c)
    ensures r.Some? ==> r.value.value == c.text[c.pos..r.value.rest.pos] && '\n' !in r.value.value
    ensures r.Some? ==> r.value.rest.pos < |c.text| && c.text[r.value.rest.pos] == '\n'
  {
    var n := Span(NotNewline, c.text, c.pos);
    if c.pos + n == |c.text| then
      None
    else
      Some(Parsed(c.text[c.pos..c.pos + n], Cursor(c.text, c.pos + n)))
  }

  /** `char(ch)`. */
  function Char(ch: char, c: Input): (r: Option<Parsed<char>>)
    ensures r.Some? <==> c.pos < |c.text| && c.text[c.pos] == ch
    ensures r.Some? ==> r.value.rest == Cursor(c.text, c.pos + 1)
  {
    if c.pos < |c.text| && c.text[c.pos] == ch then Some(Parsed(ch, Cursor(c.text, c.pos + 1))) else None
  }

  /** `tag(t)`. */
  function Tag(t: string, c: Input): (r: Option<Parsed<string>>)
    ensures r.Some? <==> t <= Remaining(c)
    ensures r.Some? ==> r.value.rest == Cursor(c.text, c.pos + |t|)
  {
    if t <= Remaining(c) then Some(Parsed(t, Cursor(c.text, c.pos + |t|))) else None
  }

  /** `eol`: a single line feed. */
  function Eol(c: Input): (r: Option<Parsed<char>>)
    ensures r.Some? <==> c.pos < |c.text| && c.text[c.pos] == '\n'
    ensures r.Some? ==> r.value.rest == Cursor(c.text, c.pos + 1)
  {
    Char('\n', c)
  }

  /** `recognize`: runs `p` and returns the text it consumed. */
  function Recognize<T>(p: Parser<T>, c: Input): (r: Option<Parsed<string>>)
    requires Sound(p)
    ensures r.Some? <==> p(c).Some?
    ensures r.Some? ==> r.value.rest == p(c).value.rest
    ensures r.Some? ==> r.value.value == c.text[c.pos..r.value.rest.pos]
  {
    var x :- p(c);
    Some(Parsed(c.text[c.pos..x.rest.pos], x.rest))
  }

  /** `is_a(" \t")`: a non-empty, maximal run of spaces and tabs. */
  function BlankRun(c: Input): (r: Option<Parsed<string>>)
    ensures r.Some? <==> c.pos < |c.text| && IsBlank(c.text[c.pos])
    ensures r.Some? ==> Consumes(r.value.rest, c)
    ensures r.Some? ==> forall k | c.pos <= k < r.value.rest.pos :: IsBlank(c.text[k])
    ensures r.Some? && r.value.rest.pos < |c.text| ==> !IsBlank(c.text[r.value.rest.pos])
  {
    var n := Span(IsBlank, c.text, c.pos);
    if n == 0 then None
    else Some(Parsed(c.text[c.pos..c.pos + n], Cursor(c.text, c.pos + n)))
  }

  /** `many1(is_a(" \t"))`: the runs of blanks at the cursor. */
  function BlankRuns(c: Input): (r: Option<Parsed<seq<string>>>)
    ensures r.Some? ==> Advances(r.value.rest, c)
  {
    Many1(BlankRun, c)
  }

  /** `is_a` already takes a maximal run, so `many1` of it stops after one. */
  lemma BlankRunsIsOneRun(c: Input)
    ensures BlankRuns(c).Some? <==> BlankRun(c).Some?
    ensures BlankRuns(c).Some? ==> BlankRuns(c).value.rest == BlankRun(c).value.rest
  {
    if BlankRun(c).Some? {
      var run := BlankRun(c).value;
      assert Many0(BlankRun, run.rest) == Some(Parsed([], run.rest));
    }
  }

  /** `indent`: `recognize(many1(is_a(" \t")))`, which is one maximal run
      of blanks (`IndentIsRecognizedRuns`). It requires some leading blanks
      and never checks how many. */
  function Indent(c: Input): (r: Option<Parsed<string>>)
    ensures r.Some? <==> c.pos < |c.text| && IsBlank(c.text[c.pos])
    ensures r.Some? ==> Consumes(r.value.rest, c)
    ensures r.Some? ==> forall k | c.pos <= k < r.value.rest.pos :: IsBlank(c.text[k])
    ensures r.Some? && r.value.rest.pos < |c.text| ==> !IsBlank(c.text[r.value.rest.pos])
  {
    BlankRun(c)
  }

  /** The run `Indent` takes is what `recognize(many1(is_a(" \t")))`
      returns. */
  lemma IndentIsRecognizedRuns(c: Input)
    ensures Indent(c) == Recognize(BlankRuns, c)
  {
    BlankRunsIsOneRun(c);
  }

  function IsNewline(ch: char): bool {
    ch == '\n'
  }

  /** `empty_lines`: `recognize(many0(eol))`, the run of line feeds at the
      cursor; never fails. */
  function EmptyLines(c: Input): (r: Option<Parsed<string>>)
    ensures r.Some? && Advances(r.value.rest, c)
    ensures forall k | c.pos <= k < r.value.rest.pos :: c.text[k] == '\n'
    ensures r.value.rest.pos < |c.text| ==> c.text[r.value.rest.pos] != '\n'
  {
    TakeWhile(IsNewline, c)
  }

  /** `str::trim`: drops leading and trailing whitespace. */
  function Trim(s: string): string {
    var a := Span(IsWhitespace, s, 0);
    var u := s[a..];
    u[..|u| - SpanBack(IsWhitespace, u)]
  }

  /** What `Trim` leaves is its input without a whitespace prefix and a
      whitespace suffix, and has no whitespace at either end: the dropped
      parts are the longest such runs. */
  lemma TrimShape(s: string)
    ensures |Trim(s)| <= |s|
    ensures var a := Span(IsWhitespace, s, 0);
      && a + |Trim(s)| <= |s| && Trim(s) == s[a..a + |Trim(s)|]
      && (forall k | 0 <= k < a :: IsWhitespace(s[k]))
      && (forall k | a + |Trim(s)| <= k < |s| :: IsWhitespace(s[k]))
    ensures Trim(s) != [] ==> NotWhitespace(Trim(s)[0]) && NotWhitespace(Trim(s)[|Trim(s)| - 1])
    ensures forall k | 0 <= k < |Trim(s)| :: Trim(s)[k] in s
  {
    var a := Span(IsWhitespace, s, 0);
    var u := s[a..];
    var b := SpanBack(IsWhitespace, u);
    assert Trim(s) == s[a..|s| - b];
    forall k | a + |Trim(s)| <= k < |s|
      ensures IsWhitespace(s[k])
    {
      assert s[k] == u[k - a];
    }
  }

  /** `pair(tag(kw), char(' '))`. */
  function KeywordSpace(kw: string, c: Input): (r: Option<Parsed<(string, char)>>)
    ensures r.Some? <==> kw + " " <= Remaining(c)
    ensures r.Some? ==> r.value.rest == Cursor(c.text, c.pos + |kw| + 1)
  {
    var k :- Tag(kw, c);
    var sp :- Char(' ', k.rest);
    assert Remaining(c)[..|kw| + 1] == kw + " ";
    Some(Parsed((k.value, sp.value), sp.rest))
  }

  /** The text of a set modifier: its keyword and a space; nothing when
      it is not set. */
  function Modifier(on: bool, kw: string): string {
    if on then kw + " " else ""
  }

  /** `optional(kw)`: true after consuming `kw` and one space, otherwise
      false after consuming nothing. */
  function Optional(kw: string, c: Input): (r: Option<Parsed<bool>>)
    ensures r.Some?
    ensures r.value.value <==> kw + " " <= Remaining(c)
    ensures r.value.value ==> r.value.rest == Cursor(c.text, c.pos + |kw| + 1)
    ensures !r.value.value ==> r.value.rest == c
  {
    var o := Opt(x => KeywordSpace(kw, x), c).value;
    Some(Parsed(o.value.Some?, o.rest))
  }
}
