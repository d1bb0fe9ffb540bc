/** What the line rules of the grammar (src/parse.rs) read from a text whose
    lines are known: comment lines with or without an indent, block
    headers, variant lines, the head lines of domains, commands, events and
    types, and parameter lines. Each line is built from its parts by a
    function, and each lemma states the value the rule yields there and
    that it stops after the line feed. */
module ParseLines {
  import opened Wrappers
  import opened Combinators
  import opened Lexer
  import opened Pdl
  import opened Parse
  import opened Slices
  import opened ParseReads

  // ---------------------------------------------------------------------
  // Comment lines

  /** A comment line: an optional indent, `#` and the raw rest of the line. */
  function CommentText(ind: string, body: string): string {
    ind + "#" + body + "\n"
  }

  /** `ParseComment` from the results of its steps. */
  lemma CommentFromSteps(text: string, body: string, c: Input, q1: nat, q2: nat, end: nat)
    requires c.text == text && c.pos <= q1 < q2 < end <= |text|
    requires Opt(Indent, c).value.rest == Cursor(text, q1)
    requires Char('#', Cursor(text, q1)) == Some(Parsed('#', Cursor(text, q1 + 1)))
    requires TakeUntilNewline(Cursor(text, q1 + 1)) == Some(Parsed(body, Cursor(text, q2)))
    requires Eol(Cursor(text, q2)) == Some(Parsed('\n', Cursor(text, end)))
    ensures ParseComment(c) == Some(Parsed(Trim(body), Cursor(text, end)))
  {
  }

  /** An optional indent before a character that is not blank. */
  lemma OptIndentBefore(text: string, q: nat, ind: string, next: string, q1: nat)
    requires ind == [] || IsIndent(ind)
    requires At(text, q, ind) && q1 == q + |ind| && At(text, q1, next)
    requires next != [] && !IsBlank(next[0])
    ensures q1 <= |text|
    ensures Opt(Indent, Cursor(text, q)).value.rest == Cursor(text, q1)
  {
    if ind != [] {
      IndentThen(text, q, ind, next);
    }
  }

  /** The rest of a line, then the line feed, ending at `end`. */
  lemma RestEolAt(text: string, p: nat, s: string, q2: nat, end: nat)
    requires '\n' !in s && At(text, p, s + "\n") && q2 == p + |s| && end == q2 + 1
    ensures end <= |text|
    ensures TakeUntilNewline(Cursor(text, p)) == Some(Parsed(s, Cursor(text, q2)))
    ensures Eol(Cursor(text, q2)) == Some(Parsed('\n', Cursor(text, end)))
  {
    AtSplit(text, p, s, "\n");
    RestThenEol(text, p, s);
  }

  /** `#`, the rest of the line and the line feed. */
  lemma HashRestAt(text: string, q1: nat, body: string, q2: nat, end: nat)
    requires '\n' !in body
    requires At(text, q1, "#" + (body + "\n")) && q2 == q1 + 1 + |body| && end == q2 + 1
    ensures end <= |text|
    ensures Char('#', Cursor(text, q1)) == Some(Parsed('#', Cursor(text, q1 + 1)))
    ensures TakeUntilNewline(Cursor(text, q1 + 1)) == Some(Parsed(body, Cursor(text, q2)))
    ensures Eol(Cursor(text, q2)) == Some(Parsed('\n', Cursor(text, end)))
  {
    AtSplitTo(text, q1, "#", body + "\n", q1 + 1);
    AtFirst(text, q1, "#");
    RestEolAt(text, q1 + 1, body, q2, end);
  }

  /** The steps of a comment line. */
  lemma CommentSteps(text: string, q: nat, ind: string, body: string, q1: nat, q2: nat, end: nat)
    requires ind == [] || IsIndent(ind)
    requires '\n' !in body
    requires At(text, q, ind + ("#" + (body + "\n")))
    requires q1 == q + |ind| && q2 == q1 + 1 + |body| && end == q2 + 1
    ensures end <= |text|
    ensures Opt(Indent, Cursor(text, q)).value.rest == Cursor(text, q1)
    ensures Char('#', Cursor(text, q1)) == Some(Parsed('#', Cursor(text, q1 + 1)))
    ensures TakeUntilNewline(Cursor(text, q1 + 1)) == Some(Parsed(body, Cursor(text, q2)))
    ensures Eol(Cursor(text, q2)) == Some(Parsed('\n', Cursor(text, end)))
  {
    AtSplitTo(text, q, ind, "#" + (body + "\n"), q1);
    HashRestAt(text, q1, body, q2, end);
    OptIndentBefore(text, q, ind, "#" + (body + "\n"), q1);
  }

  /** A comment line, indented or not, reads as the trimmed rest of the
      line after `#` and stops after the line feed. */
  lemma CommentAt(text: string, q: nat, ind: string, body: string, end: nat)
    requires ind == [] || IsIndent(ind)
    requires '\n' !in body
    requires At(text, q, CommentText(ind, body))
    requires end == q + |CommentText(ind, body)|
    ensures ParseComment(Cursor(text, q)) == Some(Parsed(Trim(body), Cursor(text, end)))
  {
    assert CommentText(ind, body) == ind + ("#" + (body + "\n"));
    var q1 := q + |ind|;
    var q2 := q1 + 1 + |body|;
    CommentSteps(text, q, ind, body, q1, q2, end);
    CommentFromSteps(text, body, Cursor(text, q), q1, q2, end);
  }

  /** A line whose first character after the indent is neither `#` nor
      blank is not a comment. */
  lemma NoCommentAt(text: string, q: nat, ind: string, ch: char)
    requires ind == [] || IsIndent(ind)
    requires At(text, q, ind + [ch]) && ch != '#' && !IsBlank(ch)
    ensures ParseComment(Cursor(text, q)).None?
  {
    AtSplit(text, q, ind, [ch]);
    AtFirst(text, q + |ind|, [ch]);
    if ind == [] {
      assert Opt(Indent, Cursor(text, q)).value.rest == Cursor(text, q);
    } else {
      IndentThen(text, q, ind, [ch]);
    }
  }

  /** There is no comment at the end of the text. */
  lemma NoCommentAtEnd(text: string)
    ensures ParseComment(Cursor(text, |text|)).None?
  {
    assert Opt(Indent, Cursor(text, |text|)).value.rest == Cursor(text, |text|);
  }

  /** `description` yields `d` and stops at `end` exactly when the comment
      rule reads the lines of `d` one after another from `c` and fails at
      `end`. */
  lemma DescriptionIsChain(c: Input, d: Description, end: Input)
    ensures ParseDescription(c) == Some(Parsed(d, end)) <==> Chain(ParseComment, c, d, end)
  {
    Many0Total(ParseComment, c);
    Many0Chain(ParseComment, c, d, end);
  }

  // ---------------------------------------------------------------------
  // Header and variant lines

  /** An indented line holding only `kw` reads as `kw`. */
  lemma HeaderAt(text: string, q: nat, ind: string, kw: string)
    requires IsIndent(ind) && kw != [] && !IsBlank(kw[0])
    requires At(text, q, ind + kw + "\n")
    ensures Header(kw, Cursor(text, q)) == Some(Parsed(kw, Cursor(text, q + |ind| + |kw| + 1)))
  {
    AtSplit(text, q, ind + kw, "\n");
    AtSplit(text, q, ind, kw);
    IndentThen(text, q, ind, kw);
    KeywordThenEol(kw, text, q + |ind|);
  }

  /** An indented line holding only a non-empty token reads as that token. */
  lemma VariantLineAt(text: string, q: nat, ind: string, name: string)
    requires IsIndent(ind) && name != [] && IsToken(name)
    requires At(text, q, ind + name + "\n")
    ensures VariantLine(Cursor(text, q)) == Some(Parsed(name, Cursor(text, q + |ind| + |name| + 1)))
  {
    AtSplit(text, q, ind + name, "\n");
    AtSplit(text, q, ind, name);
    assert NotWhitespace(name[0]);
    IndentThen(text, q, ind, name);
    TokenThenEol(text, q + |ind|, name);
  }

  // ---------------------------------------------------------------------
  // Head lines of domains, commands and events

  /** A head line without its indent: the flags, the keyword, a space and
      the name running to the line feed. */
  function HeadText(x: bool, d: bool, kw: string, name: string): string {
    FlagText(x, d) + kw + " " + name + "\n"
  }

  /** A head line splits into its flags and the rest. */
  lemma HeadPieces(text: string, q: nat, f: string, kw: string, name: string)
    requires At(text, q, f + kw + " " + name + "\n")
    ensures At(text, q, f) && At(text, q + |f|, kw + " " + name + "\n")
  {
    AtSplit(text, q, f + kw + " " + name, "\n");
    AtSplit(text, q, f + kw + " ", name);
    AtSplit(text, q, f + kw, " ");
    AtSplit(text, q, f, kw);
    AtJoin(text, q + |f|, kw, " ");
    AtJoin(text, q + |f|, kw + " ", name);
    AtJoin(text, q + |f|, kw + " " + name, "\n");
  }

  /** The keyword, the space, the name and the line feed of a head line. */
  lemma HeadTail(text: string, p: nat, kw: string, name: string)
    requires '\n' !in name && At(text, p, kw + " " + name + "\n")
    ensures Tag(kw, Cursor(text, p)) == Some(Parsed(kw, Cursor(text, p + |kw|)))
    ensures Char(' ', Cursor(text, p + |kw|)) == Some(Parsed(' ', Cursor(text, p + |kw| + 1)))
    ensures TakeUntilNewline(Cursor(text, p + |kw| + 1)) == Some(Parsed(name, Cursor(text, p + |kw| + 1 + |name|)))
    ensures Eol(Cursor(text, p + |kw| + 1 + |name|)) == Some(Parsed('\n', Cursor(text, p + |kw| + 2 + |name|)))
  {
    AtSplit(text, p, kw + " " + name, "\n");
    AtSplit(text, p, kw + " ", name);
    AtSplit(text, p, kw, " ");
    KeywordThenSpace(kw, text, p);
    RestThenEol(text, p + |kw| + 1, name);
  }

  /** What follows the flags of a head line starts with neither flag
      keyword. */
  lemma HeadClashes(kw: string, name: string)
    requires Clash(kw + " ", "experimental ") && Clash(kw + " ", "deprecated ")
    ensures Clash(kw + " " + name + "\n", "experimental ") && Clash(kw + " " + name + "\n", "deprecated ")
  {
    ClashLonger(kw + " ", name, "experimental ");
    ClashLonger(kw + " " + name, "\n", "experimental ");
    ClashLonger(kw + " ", name, "deprecated ");
    ClashLonger(kw + " " + name, "\n", "deprecated ");
  }

  /** The steps of a head line after its indent; `q2` is where its flags
      end. */
  lemma HeadSteps(text: string, q: nat, x: bool, d: bool, kw: string, name: string, q2: nat)
    requires Clash(kw + " ", "experimental ") && Clash(kw + " ", "deprecated ") && '\n' !in name
    requires At(text, q, HeadText(x, d, kw, name)) && q2 == q + |FlagText(x, d)|
    ensures Flags(Cursor(text, q)) == Some(Parsed((x, d), Cursor(text, q2)))
    ensures Tag(kw, Cursor(text, q2)) == Some(Parsed(kw, Cursor(text, q2 + |kw|)))
    ensures Char(' ', Cursor(text, q2 + |kw|)) == Some(Parsed(' ', Cursor(text, q2 + |kw| + 1)))
    ensures TakeUntilNewline(Cursor(text, q2 + |kw| + 1)) == Some(Parsed(name, Cursor(text, q2 + |kw| + 1 + |name|)))
    ensures Eol(Cursor(text, q2 + |kw| + 1 + |name|)) == Some(Parsed('\n', Cursor(text, q2 + |kw| + 2 + |name|)))
    ensures q2 + |kw| + 2 + |name| == q + |HeadText(x, d, kw, name)|
  {
    var f := FlagText(x, d);
    var rest := kw + " " + name + "\n";
    HeadPieces(text, q, f, kw, name);
    HeadClashes(kw, name);
    AtJoin(text, q, f, rest);
    FlagsAt(text, q, x, d, rest);
    HeadTail(text, q2, kw, name);
  }

  /** The first character of a head line is the first of its first flag,
      or of its keyword. */
  lemma HeadFirst(x: bool, d: bool, kw: string, name: string)
    requires kw != [] && !IsBlank(kw[0])
    ensures HeadText(x, d, kw, name) != [] && !IsBlank(HeadText(x, d, kw, name)[0])
  {
    var h := HeadText(x, d, kw, name);
    if x {
      assert h[0] == "experimental "[0];
    } else if d {
      assert h[0] == "deprecated "[0];
    } else {
      assert h[0] == kw[0];
    }
  }

  /** `DeclHead` from the results of its steps. */
  lemma DeclHeadFromSteps(kw: string, c: Input, ind: string, c1: Input, f: Parsed<(bool, bool)>,
                          c3: Input, c4: Input, name: string, c5: Input, c6: Input)
    requires Indent(c) == Some(Parsed(ind, c1))
    requires Flags(c1) == Some(f)
    requires Tag(kw, f.rest) == Some(Parsed(kw, c3))
    requires Char(' ', c3) == Some(Parsed(' ', c4))
    requires TakeUntilNewline(c4) == Some(Parsed(name, c5))
    requires Eol(c5) == Some(Parsed('\n', c6))
    ensures DeclHead(kw, c) == Some(Parsed((f.value.0, f.value.1, name), c6))
  {
  }

  /** The steps of an indented head line of a command or an event, which
      stops after the line feed, at `end`. */
  lemma DeclHeadSteps(text: string, q: nat, ind: string, x: bool, d: bool, kw: string, name: string, end: nat)
    requires IsIndent(ind) && kw != [] && !IsBlank(kw[0])
    requires Clash(kw + " ", "experimental ") && Clash(kw + " ", "deprecated ") && '\n' !in name
    requires At(text, q, ind + HeadText(x, d, kw, name)) && end == q + |ind| + |HeadText(x, d, kw, name)|
    ensures q <= end <= |text|
    ensures DeclHead(kw, Cursor(text, q)) == Some(Parsed((x, d, name), Cursor(text, end)))
  {
    var q1 := q + |ind|;
    var q2 := q1 + |FlagText(x, d)|;
    AtSplit(text, q, ind, HeadText(x, d, kw, name));
    HeadFirst(x, d, kw, name);
    IndentThen(text, q, ind, HeadText(x, d, kw, name));
    HeadSteps(text, q1, x, d, kw, name, q2);
    var c6 := Cursor(text, q2 + |kw| + 2 + |name|);
    assert Indent(Cursor(text, q)) == Some(Parsed(ind, Cursor(text, q1)));
    assert Flags(Cursor(text, q1)) == Some(Parsed((x, d), Cursor(text, q2)));
    assert Tag(kw, Cursor(text, q2)) == Some(Parsed(kw, Cursor(text, q2 + |kw|)));
    assert Char(' ', Cursor(text, q2 + |kw|)) == Some(Parsed(' ', Cursor(text, q2 + |kw| + 1)));
    assert TakeUntilNewline(Cursor(text, q2 + |kw| + 1)) == Some(Parsed(name, Cursor(text, q2 + |kw| + 1 + |name|)));
    assert Eol(Cursor(text, q2 + |kw| + 1 + |name|)) == Some(Parsed('\n', c6));
    DeclHeadFromSteps(kw, Cursor(text, q), ind, Cursor(text, q1), Parsed((x, d), Cursor(text, q2)),
      Cursor(text, q2 + |kw|), Cursor(text, q2 + |kw| + 1), name, Cursor(text, q2 + |kw| + 1 + |name|), c6);
    assert c6 == Cursor(text, end);
  }

  /** An indented head line of a command or an event reads as its flags
      and its name, and stops after the line feed, at `end`. */
  lemma DeclHeadAt(text: string, q: nat, ind: string, x: bool, d: bool, kw: string, name: string, end: nat)
    requires IsIndent(ind) && HeadKeyword(kw) && '\n' !in name
    requires At(text, q, ind + HeadText(x, d, kw, name)) && end == q + |ind| + |HeadText(x, d, kw, name)|
    ensures q <= end <= |text|
    ensures DeclHead(kw, Cursor(text, q)) == Some(Parsed((x, d, name), Cursor(text, end)))
  {
    DeclHeadSteps(text, q, ind, x, d, kw, name, end);
  }

  /** What the steps of a head line read from `q`: the flags up to `q2`,
      then the keyword, the space, the name and the line feed, up to `end`. */
  ghost predicate HeadRead(text: string, q: nat, x: bool, d: bool, kw: string, name: string, q2: nat, end: nat) {
    q <= q2 && end == q2 + |kw| + 2 + |name| && end <= |text|
    && Flags(Cursor(text, q)) == Some(Parsed((x, d), Cursor(text, q2)))
    && Tag(kw, Cursor(text, q2)) == Some(Parsed(kw, Cursor(text, q2 + |kw|)))
    && Char(' ', Cursor(text, q2 + |kw|)) == Some(Parsed(' ', Cursor(text, q2 + |kw| + 1)))
    && TakeUntilNewline(Cursor(text, q2 + |kw| + 1)) == Some(Parsed(name, Cursor(text, q2 + |kw| + 1 + |name|)))
    && Eol(Cursor(text, q2 + |kw| + 1 + |name|)) == Some(Parsed('\n', Cursor(text, q2 + |kw| + 2 + |name|)))
  }

  /** A head line with a head keyword is read by its steps. */
  lemma HeadLineRead(text: string, q: nat, x: bool, d: bool, kw: string, name: string, q2: nat, end: nat)
    requires Clash(kw + " ", "experimental ") && Clash(kw + " ", "deprecated ") && '\n' !in name
    requires At(text, q, HeadText(x, d, kw, name)) && q2 == q + |FlagText(x, d)| && end == q + |HeadText(x, d, kw, name)|
    ensures HeadRead(text, q, x, d, kw, name, q2, end)
  {
    HeadSteps(text, q, x, d, kw, name, q2);
  }

  /** `DomainHead` from what the steps of its line read. */
  lemma DomainHeadFromSteps(text: string, q: nat, x: bool, d: bool, name: string, q2: nat, end: nat)
    requires HeadRead(text, q, x, d, "domain", name, q2, end)
    ensures DomainHead(Cursor(text, q)) == Some(Parsed((x, d, name), Cursor(text, end)))
  {
  }

  /** A keyword a head line may carry: it starts with a visible character
      and, with its space, starts with neither flag keyword. */
  predicate HeadKeyword(kw: string) {
    kw != [] && !IsBlank(kw[0]) && Clash(kw + " ", "experimental ") && Clash(kw + " ", "deprecated ")
  }

  /** The keyword of a head line, with its space, starts with neither flag
      keyword. */
  lemma KeywordClashes(kw: string)
    requires kw in {"domain", "command", "event"}
    ensures Clash(kw + " ", "experimental ") && Clash(kw + " ", "deprecated ")
    ensures HeadKeyword(kw)
  {
    HeadKeywordClashes();
  }

  /** The keywords of the head lines start with neither flag keyword. */
  lemma HeadKeywordClashes()
    ensures Clash("domain ", "experimental ") && Clash("domain ", "deprecated ")
    ensures Clash("command ", "experimental ") && Clash("command ", "deprecated ")
    ensures Clash("event ", "experimental ") && Clash("event ", "deprecated ")
    ensures "domain" + " " == "domain " && "command" + " " == "command " && "event" + " " == "event "
  {
    assert "domain "[0] != "experimental "[0] && "domain "[1] != "deprecated "[1];
    assert "command "[0] != "experimental "[0] && "command "[0] != "deprecated "[0];
    assert "event "[1] != "experimental "[1] && "event "[0] != "deprecated "[0];
  }

  /** A head line of a domain, at the start of a line, reads as its flags
      and its name, and stops after the line feed, at `end`. */
  lemma DomainHeadAt(text: string, q: nat, x: bool, d: bool, name: string, end: nat)
    requires '\n' !in name
    requires At(text, q, HeadText(x, d, "domain", name)) && end == q + |HeadText(x, d, "domain", name)|
    ensures q <= end <= |text|
    ensures DomainHead(Cursor(text, q)) == Some(Parsed((x, d, name), Cursor(text, end)))
  {
    KeywordClashes("domain");
    HeadLineRead(text, q, x, d, "domain", name, q + |FlagText(x, d)|, end);
    DomainHeadFromSteps(text, q, x, d, name, q + |FlagText(x, d)|, end);
  }

  /** Flags in front of a text that starts with a visible character start
      with a visible character. */
  lemma FlagsFirst(x: bool, d: bool, rest: string)
    requires rest != [] && !IsBlank(rest[0])
    ensures FlagText(x, d) + rest != [] && !IsBlank((FlagText(x, d) + rest)[0])
  {
    var h := FlagText(x, d) + rest;
    if x {
      assert h[0] == "experimental "[0];
    } else if d {
      assert h[0] == "deprecated "[0];
    } else {
      assert h[0] == rest[0];
    }
  }

  // ---------------------------------------------------------------------
  // Type head lines

  /** The end of a type head line: ` extends `, the base type and the line
      feed. */
  function ExtendsText(s: string, isArray: bool): string {
    " extends " + TySource(s, isArray) + "\n"
  }

  /** A type head line without its indent. */
  function TypeText(x: bool, d: bool, id: string, s: string, isArray: bool): string {
    FlagText(x, d) + ("type " + id + ExtendsText(s, isArray))
  }

  /** How a type head line without its indent splits, and its length. */
  lemma TypeTextFacts(x: bool, d: bool, id: string, s: string, isArray: bool)
    ensures var rest := "type " + id + ExtendsText(s, isArray);
      && rest != [] && rest[0] == 't' && !IsBlank(rest[0])
      && Clash(rest, "experimental ") && Clash(rest, "deprecated ")
      && TypeText(x, d, id, s, isArray) == FlagText(x, d) + rest
    ensures |TypeText(x, d, id, s, isArray)| == |FlagText(x, d)| + 5 + |id| + 9 + |TySource(s, isArray)| + 1
  {
    var rest := "type " + id + ExtendsText(s, isArray);
    assert rest[0] == 't';
    assert rest[0] != "experimental "[0] && rest[0] != "deprecated "[0];
  }

  /** An indent before a text that starts with no blank; `q1` is where
      the indent ends. */
  lemma IndentBefore(text: string, q: nat, ind: string, next: string, q1: nat)
    requires IsIndent(ind) && next != [] && !IsBlank(next[0])
    requires At(text, q, ind) && q1 == q + |ind| && At(text, q1, next)
    ensures Indent(Cursor(text, q)) == Some(Parsed(ind, Cursor(text, q1)))
  {
    IndentThen(text, q, ind, next);
  }

  /** An indent, then the two flags in the fixed order before a text that
      starts with neither of them and with no blank; `q1` is where the
      indent ends and `q2` where the flags end. */
  lemma IndentFlagsAt(text: string, q: nat, ind: string, x: bool, d: bool, after: string, q1: nat, q2: nat)
    requires IsIndent(ind) && after != [] && !IsBlank(after[0])
    requires Clash(after, "experimental ") && Clash(after, "deprecated ")
    requires At(text, q, ind + (FlagText(x, d) + after))
    requires q1 == q + |ind| && q2 == q1 + |FlagText(x, d)|
    ensures Indent(Cursor(text, q)) == Some(Parsed(ind, Cursor(text, q1)))
    ensures Flags(Cursor(text, q1)) == Some(Parsed((x, d), Cursor(text, q2)))
    ensures At(text, q2, after)
  {
    AtSplit(text, q, ind, FlagText(x, d) + after);
    FlagsFirst(x, d, after);
    IndentBefore(text, q, ind, FlagText(x, d) + after, q1);
    FlagsBefore(text, q1, x, d, after, q2);
  }

  /** `type`, a space and the type's name, up to the next space; `p3` is
      where the name ends. */
  lemma TypeIdSteps(text: string, p: nat, id: string, after: string, p3: nat)
    requires IsToken(id) && after != [] && after[0] == ' '
    requires At(text, p, "type " + id + after) && p3 == p + 5 + |id|
    ensures Tag("type", Cursor(text, p)) == Some(Parsed("type", Cursor(text, p + 4)))
    ensures Char(' ', Cursor(text, p + 4)) == Some(Parsed(' ', Cursor(text, p + 5)))
    ensures TakeWhile(NotWhitespace, Cursor(text, p + 5)) == Some(Parsed(id, Cursor(text, p3)))
    ensures At(text, p3, after)
  {
    AtSplit(text, p, "type " + id, after);
    AtSplit(text, p, "type ", id);
    assert "type " == "type" + " ";
    AtSplit(text, p, "type", " ");
    KeywordThenSpace("type", text, p);
    AtSlice(text, p + 5, id);
    AtFirst(text, p + 5 + |id|, after);
    TakeWhileAt(NotWhitespace, text, p + 5, id);
  }

  /** The pieces of ` extends <ts>` and a line feed. */
  lemma ExtendsPieces(text: string, p: nat, ts: string)
    requires At(text, p, " extends " + ts + "\n")
    ensures At(text, p, " ") && At(text, p + 1, "extends") && At(text, p + 8, " ")
    ensures At(text, p + 9, ts + "\n")
  {
    Assoc(" extends ", ts, "\n");
    AtSplit(text, p, " extends ", ts + "\n");
    assert " extends " == " " + "extends" + " ";
    AtSplit(text, p, " " + "extends", " ");
    AtSplit(text, p, " ", "extends");
  }

  /** A line feed; `end` is the position after it. */
  lemma EolAt(text: string, p: nat, end: nat)
    requires At(text, p, "\n") && end == p + 1
    ensures Eol(Cursor(text, p)) == Some(Parsed('\n', Cursor(text, end)))
  {
    AtFirst(text, p, "\n");
  }

  /** ` extends `, the base type and the line feed; `p4` is where the type
      ends and `end` where the line ends. */
  lemma ExtendsSteps(text: string, p: nat, s: string, isArray: bool, p4: nat, end: nat)
    requires IsToken(s) && (isArray || Clash(s + "\n", "array of "))
    requires At(text, p, ExtendsText(s, isArray)) && p4 == p + 9 + |TySource(s, isArray)| && end == p4 + 1
    ensures end <= |text|
    ensures Char(' ', Cursor(text, p)) == Some(Parsed(' ', Cursor(text, p + 1)))
    ensures Tag("extends", Cursor(text, p + 1)) == Some(Parsed("extends", Cursor(text, p + 8)))
    ensures Char(' ', Cursor(text, p + 8)) == Some(Parsed(' ', Cursor(text, p + 9)))
    ensures ParseTy(Cursor(text, p + 9)) == Some(Parsed(NewTy(s, isArray), Cursor(text, p4)))
    ensures Eol(Cursor(text, p4)) == Some(Parsed('\n', Cursor(text, end)))
  {
    var ts := TySource(s, isArray);
    ExtendsPieces(text, p, ts);
    AtFirst(text, p, " ");
    KeywordThenSpace("extends", text, p + 1);
    TyAt(text, p + 9, s, isArray, "\n", p4);
    EolAt(text, p4, end);
  }

  /** `TypeHead` from the results of its steps. */
  lemma TypeHeadFromSteps(c: Input, ind: string, c1: Input, f: Parsed<(bool, bool)>, k: Input, sp: Input,
                          id: string, n: Input, sp2: Input, ext: Input, sp3: Input, t: Parsed<Ty>, e: Input)
    requires Indent(c) == Some(Parsed(ind, c1))
    requires Flags(c1) == Some(f)
    requires Tag("type", f.rest) == Some(Parsed("type", k))
    requires Char(' ', k) == Some(Parsed(' ', sp))
    requires TakeWhile(NotWhitespace, sp) == Some(Parsed(id, n))
    requires Char(' ', n) == Some(Parsed(' ', sp2))
    requires Tag("extends", sp2) == Some(Parsed("extends", ext))
    requires Char(' ', ext) == Some(Parsed(' ', sp3))
    requires ParseTy(sp3) == Some(t)
    requires Eol(t.rest) == Some(Parsed('\n', e))
    ensures TypeHead(c) == Some(Parsed((f.value.0, f.value.1, id, t.value), e))
  {
  }

  /** An indented type head line reads as its flags, its name and the type
      `Ty::new` resolves its base to, and stops at the end of the line. */
  lemma TypeHeadAt(text: string, q: nat, ind: string, x: bool, d: bool, id: string, s: string, isArray: bool, end: nat)
    requires IsIndent(ind) && IsToken(id) && IsToken(s) && (isArray || Clash(s + "\n", "array of "))
    requires At(text, q, ind + TypeText(x, d, id, s, isArray))
    requires end == q + |ind| + |TypeText(x, d, id, s, isArray)|
    ensures TypeHead(Cursor(text, q)) == Some(Parsed((x, d, id, NewTy(s, isArray)), Cursor(text, end)))
  {
    TypeTextFacts(x, d, id, s, isArray);
    var rest := "type " + id + ExtendsText(s, isArray);
    var q1 := q + |ind|;
    var q2 := q1 + |FlagText(x, d)|;
    var q3 := q2 + 5 + |id|;
    var q4 := q3 + 9 + |TySource(s, isArray)|;
    IndentFlagsAt(text, q, ind, x, d, rest, q1, q2);
    TypeIdSteps(text, q2, id, ExtendsText(s, isArray), q3);
    ExtendsSteps(text, q3, s, isArray, q4, end);
    TypeHeadFromSteps(Cursor(text, q), ind, Cursor(text, q1), Parsed((x, d), Cursor(text, q2)),
      Cursor(text, q2 + 4), Cursor(text, q2 + 5), id, Cursor(text, q3), Cursor(text, q3 + 1),
      Cursor(text, q3 + 8), Cursor(text, q3 + 9), Parsed(NewTy(s, isArray), Cursor(text, q4)), Cursor(text, end));
  }

  // ---------------------------------------------------------------------
  // Parameter lines

  /** The end of a parameter line: a space, the name and the line feed. */
  function NameEnd(name: string): string {
    " " + name + "\n"
  }

  /** A parameter line after its modifiers: the type and the name. */
  function ParamRest(s: string, isArray: bool, name: string): string {
    TySource(s, isArray) + NameEnd(name)
  }

  /** A parameter line without its indent. */
  function ParamText(x: bool, d: bool, o: bool, s: string, isArray: bool, name: string): string {
    FlagText(x, d) + Modifier(o, "optional") + ParamRest(s, isArray, name)
  }

  /** A space, a name and the line feed; `end` is where the line ends. */
  lemma NameEndSteps(text: string, p: nat, name: string, end: nat)
    requires IsToken(name) && At(text, p, NameEnd(name)) && end == p + 2 + |name|
    ensures end <= |text|
    ensures Char(' ', Cursor(text, p)) == Some(Parsed(' ', Cursor(text, p + 1)))
    ensures TakeWhile(NotWhitespace, Cursor(text, p + 1)) == Some(Parsed(name, Cursor(text, p + 1 + |name|)))
    ensures Eol(Cursor(text, p + 1 + |name|)) == Some(Parsed('\n', Cursor(text, end)))
  {
    AtSplit(text, p, " " + name, "\n");
    AtSplit(text, p, " ", name);
    AtFirst(text, p, " ");
    TokenThenEol(text, p + 1, name);
  }

  /** The type of a parameter line is not read as a modifier. */
  lemma ParamRestClashes(s: string, isArray: bool, name: string)
    requires IsToken(s) && s != [] && IsToken(name)
    requires !isArray ==> s != "experimental" && s != "deprecated" && s != "optional"
    ensures Clash(ParamRest(s, isArray, name), "experimental ")
    ensures Clash(ParamRest(s, isArray, name), "deprecated ")
    ensures Clash(ParamRest(s, isArray, name), "optional ")
  {
    var r := ParamRest(s, isArray, name);
    if isArray {
      assert r[0] == 'a';
      assert r[0] != "experimental "[0] && r[0] != "deprecated "[0] && r[0] != "optional "[0];
    } else {
      assert r == s + NameEnd(name);
      assert IsToken("experimental") && IsToken("deprecated") && IsToken("optional");
      TokenClash("experimental", s, NameEnd(name));
      TokenClash("deprecated", s, NameEnd(name));
      TokenClash("optional", s, NameEnd(name));
    }
  }

  /** The modifiers in front of a text that starts with a visible
      character start with a visible character. */
  lemma ModifiersFirst(x: bool, d: bool, o: bool, after: string)
    requires after != [] && !IsBlank(after[0])
    ensures FlagText(x, d) + Modifier(o, "optional") + after != []
    ensures !IsBlank((FlagText(x, d) + Modifier(o, "optional") + after)[0])
  {
    var m := Modifier(o, "optional") + after;
    assert m[0] == if o then 'o' else after[0];
    Assoc(FlagText(x, d), Modifier(o, "optional"), after);
    FlagsFirst(x, d, m);
  }

  /** An indent, then the three modifiers in the fixed order before a text
      that starts with none of them and with no blank; `q1` is where the
      indent ends and `q3` where the modifiers end. */
  lemma IndentModifiersAt(text: string, q: nat, ind: string, x: bool, d: bool, o: bool, after: string, q1: nat, q3: nat)
    requires IsIndent(ind) && after != [] && !IsBlank(after[0])
    requires Clash(after, "experimental ") && Clash(after, "deprecated ") && Clash(after, "optional ")
    requires At(text, q, ind + (FlagText(x, d) + Modifier(o, "optional") + after))
    requires q1 == q + |ind| && q3 == q1 + |FlagText(x, d)| + |Modifier(o, "optional")|
    ensures Indent(Cursor(text, q)) == Some(Parsed(ind, Cursor(text, q1)))
    ensures ParamModifiers(Cursor(text, q1)) == Some(Parsed((x, d, o), Cursor(text, q3)))
    ensures At(text, q3, after)
  {
    var m := FlagText(x, d) + Modifier(o, "optional") + after;
    AtSplit(text, q, ind, m);
    ModifiersFirst(x, d, o, after);
    IndentBefore(text, q, ind, m, q1);
    ModifiersAt(text, q1, x, d, o, after, q3);
  }

  /** The text after the modifiers of a parameter line starts with a
      visible character. */
  lemma ParamRestFirst(s: string, isArray: bool, name: string)
    requires IsToken(s) && s != []
    ensures ParamRest(s, isArray, name) != [] && !IsBlank(ParamRest(s, isArray, name)[0])
  {
    assert ParamRest(s, isArray, name)[0] == if isArray then 'a' else s[0];
  }

  /** How a parameter line without its indent splits, and its length. */
  lemma ParamTextFacts(x: bool, d: bool, o: bool, s: string, isArray: bool, name: string)
    requires IsToken(s) && s != [] && IsToken(name)
    requires !isArray ==> s != "experimental" && s != "deprecated" && s != "optional"
    ensures ParamRest(s, isArray, name) != [] && !IsBlank(ParamRest(s, isArray, name)[0])
    ensures Clash(ParamRest(s, isArray, name), "experimental ") && Clash(ParamRest(s, isArray, name), "deprecated ")
      && Clash(ParamRest(s, isArray, name), "optional ")
    ensures isArray || Clash(s + NameEnd(name), "array of ")
    ensures ParamText(x, d, o, s, isArray, name) == FlagText(x, d) + Modifier(o, "optional") + ParamRest(s, isArray, name)
    ensures |ParamText(x, d, o, s, isArray, name)|
      == |FlagText(x, d)| + |Modifier(o, "optional")| + |TySource(s, isArray)| + 2 + |name|
  {
    ParamRestClashes(s, isArray, name);
    NotArrayPrefix(s, name);
    ParamRestFirst(s, isArray, name);
  }

  /** `ParamLine` from the results of its steps at known positions. */
  lemma ParamLineFromSteps(text: string, q: nat, ind: string, m: (bool, bool, bool), t: Ty, name: string,
                           q1: nat, q3: nat, q4: nat, end: nat)
    requires q <= q1 <= q3 <= q4 && q4 + 1 + |name| < end <= |text| && name != []
    requires Indent(Cursor(text, q)) == Some(Parsed(ind, Cursor(text, q1)))
    requires ParamModifiers(Cursor(text, q1)) == Some(Parsed(m, Cursor(text, q3)))
    requires ParseTy(Cursor(text, q3)) == Some(Parsed(t, Cursor(text, q4)))
    requires Char(' ', Cursor(text, q4)) == Some(Parsed(' ', Cursor(text, q4 + 1)))
    requires TakeWhile(NotWhitespace, Cursor(text, q4 + 1)) == Some(Parsed(name, Cursor(text, q4 + 1 + |name|)))
    requires Eol(Cursor(text, q4 + 1 + |name|)) == Some(Parsed('\n', Cursor(text, end)))
    ensures ParamLine(Cursor(text, q)) == Some(Parsed((m.0, m.1, m.2, t, name), Cursor(text, end)))
  {
  }

  /** A parameter line whose type, wherever it ends (`q4`), has been read
      as `t`: the modifiers come before any text `rest` that starts with
      none of them, and the name follows the type. */
  lemma ParamLineRead(text: string, q: nat, ind: string, x: bool, d: bool, o: bool, rest: string, t: Ty, name: string,
                      q1: nat, q3: nat, q4: nat, end: nat)
    requires IsIndent(ind) && rest != [] && !IsBlank(rest[0])
    requires Clash(rest, "experimental ") && Clash(rest, "deprecated ") && Clash(rest, "optional ")
    requires At(text, q, ind + (FlagText(x, d) + Modifier(o, "optional") + rest))
    requires q1 == q + |ind| && q3 == q1 + |FlagText(x, d)| + |Modifier(o, "optional")| && q3 <= q4 <= |text|
    requires ParseTy(Cursor(text, q3)) == Some(Parsed(t, Cursor(text, q4)))
    requires IsToken(name) && name != [] && At(text, q4, NameEnd(name)) && end == q4 + 2 + |name| && end <= |text|
    ensures ParamLine(Cursor(text, q)) == Some(Parsed((x, d, o, t, name), Cursor(text, end)))
  {
    IndentModifiersAt(text, q, ind, x, d, o, rest, q1, q3);
    NameEndSteps(text, q4, name, end);
    ParamLineFromSteps(text, q, ind, (x, d, o), t, name, q1, q3, q4, end);
  }

  /** An indented parameter line reads as its three flags, the type
      `Ty::new` resolves its type text to, and its name, and stops at the
      end of the line. */
  lemma ParamLineAt(text: string, q: nat, ind: string, x: bool, d: bool, o: bool, s: string, isArray: bool, name: string,
                    end: nat)
    requires IsIndent(ind) && IsToken(s) && s != [] && IsToken(name) && name != []
    requires !isArray ==> s != "experimental" && s != "deprecated" && s != "optional"
    requires At(text, q, ind + ParamText(x, d, o, s, isArray, name))
    requires end == q + |ind| + |ParamText(x, d, o, s, isArray, name)|
    ensures ParamLine(Cursor(text, q)) == Some(Parsed((x, d, o, NewTy(s, isArray), name), Cursor(text, end)))
  {
    ParamTextFacts(x, d, o, s, isArray, name);
    var q1 := q + |ind|;
    var q3 := q1 + |FlagText(x, d)| + |Modifier(o, "optional")|;
    var q4 := q3 + |TySource(s, isArray)|;
    IndentModifiersAt(text, q, ind, x, d, o, ParamRest(s, isArray, name), q1, q3);
    TyAt(text, q3, s, isArray, NameEnd(name), q4);
    ParamLineRead(text, q, ind, x, d, o, ParamRest(s, isArray, name), NewTy(s, isArray), name, q1, q3, q4, end);
  }
}
