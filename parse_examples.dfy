/** Inputs of the parser's own tests, read with the rule lemmas: each test
    text is built from the line shapes the lemmas take, and is checked to
    be the same string as the test's literal. */
module ParseExamples {
  import opened Wrappers
  import opened Combinators
  import opened Lexer
  import opened Pdl
  import opened Parse
  import opened Slices
  import opened ParseReads
  import opened ParseLines
  import opened ParseRules

  /** With no comment at `q`, the description there is empty. */
  lemma NoDescription(text: string, q: nat)
    requires q <= |text| && ParseComment(Cursor(text, q)).None?
    ensures ParseDescription(Cursor(text, q)) == Some(Parsed([], Cursor(text, q)))
  {
    DescriptionIsChain(Cursor(text, q), [], Cursor(text, q));
  }

  /** One comment at `q`, ending at `q1`, and no comment after it. */
  lemma OneComment(text: string, q: nat, q1: nat, comment: string)
    requires q < q1 <= |text|
    requires ParseComment(Cursor(text, q)) == Some(Parsed(comment, Cursor(text, q1)))
    requires ParseComment(Cursor(text, q1)).None?
    ensures ParseDescription(Cursor(text, q)) == Some(Parsed([comment], Cursor(text, q1)))
  {
    DescriptionIsChain(Cursor(text, q), [comment], Cursor(text, q1));
  }

  /** A comment body of one space and then `t`, which has no whitespace
      at either end, trims to `t`. */
  lemma TrimLeadingSpace(t: string)
    requires t != [] && NotWhitespace(t[0]) && NotWhitespace(t[|t| - 1])
    ensures Trim(" " + t) == t
  {
    var s := " " + t;
    assert s[1] == t[0];
    SpanExact(IsWhitespace, s, 0, 1);
    assert s[1..] == t;
  }

  // ---------------------------------------------------------------------
  // `parse_depends_on`

  const DependsOnText: string := "  depends on DOM\n"

  /** The test line is a `depends on` line with a two-space indent. */
  lemma DependsOnShape()
    ensures DependsOnText == KeyedLine("  ", "depends on", "DOM")
  {
  }

  /** `depends_on` reads `DOM` from the test line and leaves nothing. */
  lemma DependsOnExample(text: string)
    requires text == KeyedLine("  ", "depends on", "DOM")
    ensures ParseDependsOn(Cursor(text, 0)) == Some(Parsed("DOM", Cursor(text, |text|)))
  {
    AtWhole(text);
    assert IsIndent("  ") && IsToken("DOM");
    DependsOnAt(text, 0, "  ", "DOM");
  }

  // ---------------------------------------------------------------------
  // `parse_domain`

  const DomainText: string := "experimental domain Accessibility\n"

  /** The test line is an experimental domain head line. */
  lemma DomainShape()
    ensures DomainText == HeadText(true, false, "domain", "Accessibility")
  {
  }

  /** A text that starts with a character other than `#` and a blank has
      an empty description. */
  lemma LineWithoutComment(text: string, ch: char)
    requires text != [] && text[0] == ch && ch != '#' && !IsBlank(ch)
    ensures ParseDescription(Cursor(text, 0)) == Some(Parsed([], Cursor(text, 0)))
  {
    assert At(text, 0, [] + [ch]);
    NoCommentAt(text, 0, [], ch);
    NoDescription(text, 0);
  }

  /** A text that is one experimental domain head line, with nothing
      before or after it, reads as a domain with no description and no
      children, and nothing is left. */
  lemma DomainLineAlone(text: string, name: string)
    requires '\n' !in name && text == HeadText(true, false, "domain", name)
    ensures ParseDomain(Cursor(text, 0))
      == Some(Parsed(Domain([], true, false, name, [], [], [], []), Cursor(text, |text|)))
  {
    AtWhole(text);
    LineWithoutComment(text, 'e');
    NothingAtEnd(text);
    DomainAt(text, 0, [], 0, true, false, name, |text|, [], [], [], [], Cursor(text, |text|));
  }

  /** `domain` reads the test line as an experimental domain with no
      description and no children, and leaves nothing. */
  lemma DomainExample(text: string)
    requires text == HeadText(true, false, "domain", "Accessibility")
    ensures ParseDomain(Cursor(text, 0))
      == Some(Parsed(Domain([], true, false, "Accessibility", [], [], [], []), Cursor(text, |text|)))
  {
    DomainLineAlone(text, "Accessibility");
  }

  // ---------------------------------------------------------------------
  // `parse_redirect`

  /** The comment of the test text and the text itself, written in
      short pieces. */
  const RedirectComment: string := "Use 'Emulation." + "clearGeolocation" + "Override' instead"
  const RedirectText: string := "    # " + RedirectComment + "\n" + "    redirect Emulation\n"

  /** The test text is a comment line and a `redirect` line, both
      indented by four spaces. */
  lemma RedirectShape()
    ensures RedirectText == CommentText("    ", " " + RedirectComment) + KeyedLine("    ", "redirect", "Emulation")
  {
    var c := RedirectComment;
    assert "    # " + c + "\n" == "    " + "#" + (" " + c) + "\n";
    assert "    redirect Emulation\n" == KeyedLine("    ", "redirect", "Emulation");
  }

  /** The test comment is one line with no whitespace at either end. */
  lemma RedirectCommentClean()
    ensures RedirectComment != [] && '\n' !in RedirectComment
    ensures NotWhitespace(RedirectComment[0]) && NotWhitespace(RedirectComment[|RedirectComment| - 1])
  {
  }

  /** A text made of two parts holds each of them where it starts. */
  lemma TwoParts(text: string, a: string, b: string)
    requires text == a + b
    ensures At(text, 0, a) && At(text, |a|, b)
  {
    AtWhole(text);
    AtSplitTo(text, 0, a, b, |a|);
  }

  /** The test's `redirect` line starts with four spaces and an `r`. */
  lemma RedirectLineStart(text: string, p: nat)
    requires At(text, p, KeyedLine("    ", "redirect", "Emulation"))
    ensures At(text, p, "    " + "r")
  {
    KeyedPieces(text, p, "    ", "redirect", "Emulation");
    AtFirst(text, p + 4, "redirect");
    assert At(text, p + 4, "r");
    AtJoin(text, p, "    ", "r");
  }

  /** A comment line whose body is a space and a trimmed one-line
      `comment`, followed by a line that is not a comment, is a description
      of that one comment. */
  lemma SpaceCommentAt(text: string, ind: string, comment: string, q1: nat, ch: char)
    requires IsIndent(ind) && comment != [] && '\n' !in comment
    requires NotWhitespace(comment[0]) && NotWhitespace(comment[|comment| - 1])
    requires At(text, 0, CommentText(ind, " " + comment)) && q1 == |CommentText(ind, " " + comment)|
    requires At(text, q1, ind + [ch]) && ch != '#' && !IsBlank(ch)
    ensures ParseDescription(Cursor(text, 0)) == Some(Parsed([comment], Cursor(text, q1)))
  {
    CommentAt(text, 0, ind, " " + comment, q1);
    TrimLeadingSpace(comment);
    NoCommentAt(text, q1, ind, ch);
    OneComment(text, 0, q1, comment);
  }

  /** Under a comment line of one space and a trimmed one-line `comment`,
      an indented `redirect Emulation` line reads as a redirect whose
      description is that comment, and nothing is left. */
  lemma RedirectWithComment(text: string, comment: string)
    requires comment != [] && '\n' !in comment
    requires NotWhitespace(comment[0]) && NotWhitespace(comment[|comment| - 1])
    requires text == CommentText("    ", " " + comment) + KeyedLine("    ", "redirect", "Emulation")
    ensures ParseRedirect(Cursor(text, 0))
      == Some(Parsed(Redirect([comment], "Emulation"), Cursor(text, |text|)))
  {
    var ind := "    ";
    var a := CommentText(ind, " " + comment);
    var b := KeyedLine(ind, "redirect", "Emulation");
    TwoParts(text, a, b);
    RedirectLineStart(text, |a|);
    assert IsIndent(ind) && IsToken("Emulation");
    SpaceCommentAt(text, ind, comment, |a|, 'r');
    RedirectAt(text, 0, [comment], |a|, ind, "Emulation", |text|);
  }

  /** `redirect` reads the test text as a redirect to `Emulation` whose
      description is the trimmed comment above it, and leaves nothing. */
  lemma RedirectExample(text: string)
    requires text == CommentText("    ", " " + RedirectComment) + KeyedLine("    ", "redirect", "Emulation")
    ensures ParseRedirect(Cursor(text, 0))
      == Some(Parsed(Redirect([RedirectComment], "Emulation"), Cursor(text, |text|)))
  {
    RedirectCommentClean();
    RedirectWithComment(text, RedirectComment);
  }
}
