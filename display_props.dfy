/** Properties of the canonical-text renderer (src/display.rs): what the
    `Display` impls write, how the `Ident` wrapper indents, and which of the
    written forms the parser reads back. */
module DisplayProps {
  import opened Wrappers
  import opened Combinators
  import opened Lexer
  import opened Pdl
  import opened Parse
  import opened Display
  import opened Slices

  // ---------------------------------------------------------------------
  // Types

  /** The text of a resolved token is the token, after `array of ` when the
      array flag is set. */
  lemma TyTextNewTy(s: string, isArray: bool)
    ensures Concat(TyText(NewTy(s, isArray))) == (if isArray then "array of " else "") + s
  {
    var bare := NewTy(s, false);
    assert TyText(bare) == [s] by {
      if s !in Keywords {
        assert bare == Ref(s);
      }
    }
    assert Concat([s]) == s by {
      assert [s][..0] == [];
    }
    if isArray {
      assert TyText(NewTy(s, true)) == ["array of "] + [s];
      ConcatAppend(["array of "], [s]);
      assert Concat(["array of "]) == "array of " by {
        assert ["array of "][..0] == [];
      }
    }
  }

  /** `optional("array of")` at the start of `text` reads the flag back. */
  lemma ArrayPrefixAt(text: string, isArray: bool)
    requires isArray ==> "array of " <= text
    requires !isArray ==> !("array of " <= text)
    ensures Optional("array of", Cursor(text, 0)).value
      == Parsed(isArray, Cursor(text, if isArray then 9 else 0))
  {
    var c: Input := Cursor(text, 0);
    assert Remaining(c) == text;
  }

  /** Reading back a token, after `array of ` when the flag is set, gives the
      type `NewTy` resolves it to. */
  lemma ParseTyAt(text: string, s: string, isArray: bool)
    requires IsToken(s)
    requires isArray ==> "array of " <= text
    requires !isArray ==> !("array of " <= text)
    requires var pos := if isArray then 9 else 0;
      pos + |s| <= |text| && text[pos..pos + |s|] == s
      && (pos + |s| < |text| ==> IsWhitespace(text[pos + |s|]))
    ensures var pos := if isArray then 9 else 0;
      ParseTy(Cursor(text, 0)) == Some(Parsed(NewTy(s, isArray), Cursor(text, pos + |s|)))
  {
    var pos := if isArray then 9 else 0;
    ArrayPrefixAt(text, isArray);
    TakeWhileAt(NotWhitespace, text, pos, s);
  }

  /** Reading back the text of a resolved token gives the same type, when
      the text is followed by whitespace or by nothing, and an unflagged
      token does not read as the `array of ` prefix. */
  lemma TyRoundTrip(text: string, s: string, isArray: bool)
    requires IsToken(s)
    requires var t := Concat(TyText(NewTy(s, isArray)));
      t <= text && (|t| < |text| ==> IsWhitespace(text[|t|]))
    requires isArray || !("array of " <= text)
    ensures ParseTy(Cursor(text, 0))
      == Some(Parsed(NewTy(s, isArray), Cursor(text, |Concat(TyText(NewTy(s, isArray)))|)))
  {
    TyTextNewTy(s, isArray);
    var prefix := if isArray then "array of " else "";
    PrefixParts(text, prefix, s);
    ParseTyAt(text, s, isArray);
  }

  /** The text of one fragment is the fragment. */
  lemma ConcatOne(a: string)
    ensures Concat([a]) == a
  {
    assert [a][..0] == [];
  }

  /** A parameter writes its modifiers in the fixed order `experimental`,
      `deprecated`, `optional`, each only when set, then its type, a space
      and its name. */
  lemma ParamTextShape(p: Param)
    ensures Concat(ParamText(p))
      == Modifier(p.experimental, "experimental") + Modifier(p.deprecated, "deprecated") + Modifier(p.optional, "optional")
         + Concat(TyText(p.ty)) + " " + p.name
  {
    var x := Modifier(p.experimental, "experimental");
    var d := Modifier(p.deprecated, "deprecated");
    var o := Modifier(p.optional, "optional");
    var ty := TyText(p.ty);
    assert ParamText(p) == [x] + [d] + [o] + ty + [" "] + [p.name];
    ConcatAppend([x] + [d] + [o] + ty + [" "], [p.name]);
    ConcatAppend([x] + [d] + [o] + ty, [" "]);
    ConcatAppend([x] + [d] + [o], ty);
    ConcatAppend([x] + [d], [o]);
    ConcatAppend([x], [d]);
    ConcatOne(x);
    ConcatOne(d);
    ConcatOne(o);
    ConcatOne(" ");
    ConcatOne(p.name);
  }

  // ---------------------------------------------------------------------
  // Lists

  /** Writing any fragments writes at least as many to the base sink. */
  lemma {:induction false} ThroughGrows(w: Writer, fs: seq<string>)
    ensures |Through(w, fs)| >= |fs|
    decreases w
  {
    match w
    case Base =>
    case Ident(inner) =>
      IdentMapShape(fs);
      ThroughGrows(inner, IdentMap(fs));
  }

  /** `write_params` writes nothing, not even its header, exactly when the
      list is empty. */
  lemma ParamsDocEmpty(w: Writer, name: string, ps: seq<Param>)
    ensures Render(w, ParamsDoc(name, ps)) == [] <==> ps == []
  {
    if ps != [] {
      ThroughGrows(w, [name, "\n"]);
      assert |Render(w, ParamsDoc(name, ps))| >= |Render(w, Text([name, "\n"]))|;
    }
  }

  /** A redirect writes `redirect ` and its target; its description is
      dropped. A variant writes its name alone. */
  lemma RedirectAndVariantText(r: Redirect, v: Variant)
    ensures Concat(RedirectText(r)) == "redirect " + r.to
    ensures Concat(VariantText(v)) == v.name
    ensures forall d :: RedirectText(r.(description := d)) == RedirectText(r)
  {
    assert ["redirect ", r.to][..1] == ["redirect "];
    assert ["redirect "][..0] == [];
    assert [v.name][..0] == [];
  }

  // ---------------------------------------------------------------------
  // Indentation as written

  /** `INDENT` repeated `n` times. */
  function Repeat(s: string, n: nat): string {
    if n == 0 then [] else Repeat(s, n - 1) + s
  }

  lemma {:induction false} RepeatAdd(s: string, m: nat, n: nat)
    ensures Repeat(s, m) + Repeat(s, n) == Repeat(s, m + n)
    decreases n
  {
    if n > 0 {
      RepeatAdd(s, m, n - 1);
    }
  }

  lemma RepeatStep(s: string, n: nat)
    requires n >= 1
    ensures Repeat(s, n) == Repeat(s, n - 1) + s
  {
  }

  /** The number of `Ident` layers of a writer. */
  function Depth(w: Writer): nat {
    match w
    case Base => 0
    case Ident(inner) => 1 + Depth(inner)
  }

  function Pow2(n: nat): (r: nat)
    ensures r >= 1
  {
    if n == 0 then 1 else 2 * Pow2(n - 1)
  }

  /** As written, a fragment passed through `d` `Ident` layers arrives with
      `2^d - 1` indentation units before it: each layer writes its `INDENT`
      through all the layers below it. */
  lemma {:induction false} IdentDoubles(w: Writer, s: string)
    ensures Concat(Through(w, [s])) == Repeat(INDENT, Pow2(Depth(w)) - 1) + s
    decreases w
  {
    match w
    case Base =>
      assert [s][..0] == [];
    case Ident(inner) =>
      var p := Pow2(Depth(inner));
      var a := Through(inner, [INDENT]);
      var b := Through(inner, [s]);
      ThroughIdentOne(inner, s);
      ConcatAppend(a, b);
      IdentDoubles(inner, INDENT);
      IdentDoubles(inner, s);
      RepeatDouble(INDENT, p, s);
      assert Pow2(Depth(w)) - 1 == 2 * p - 1;
      calc {
        Concat(Through(w, [s]));
        Concat(a) + Concat(b);
        (Repeat(INDENT, p - 1) + INDENT) + (Repeat(INDENT, p - 1) + s);
      }
  }

  /** One `Ident` layer turns a fragment into `INDENT` and the fragment. */
  lemma ThroughIdentOne(inner: Writer, s: string)
    ensures Through(Ident(inner), [s]) == Through(inner, [INDENT]) + Through(inner, [s])
  {
    assert IdentMap([s]) == [INDENT] + [s] by {
      assert [s][..0] == [];
    }
    ThroughAppend(inner, [INDENT], [s]);
  }

  /** `(r + u) + (r + s)` with `r + u` being `p` units is `2p - 1` units and `s`. */
  lemma RepeatDouble(u: string, p: nat, s: string)
    requires p >= 1
    ensures (Repeat(u, p - 1) + u) + (Repeat(u, p - 1) + s) == Repeat(u, 2 * p - 1) + s
  {
    RepeatStep(u, p);
    RepeatAdd(u, p, p - 1);
    Append2(Repeat(u, p), Repeat(u, p - 1), s);
  }

  /** Two nested layers indent a fragment by three units instead of two. */
  lemma IdentNestingCounterexample()
    ensures Concat(Through(Ident(Ident(Base)), ["x"])) == "      x"
    ensures Concat(Through(Ident(Ident(Base)), ["x"])) != Repeat(INDENT, 2) + "x"
  {
    IdentDoubles(Ident(Ident(Base)), "x");
    assert Repeat(INDENT, 3) == "      ";
  }

  // ---------------------------------------------------------------------
  // Indentation as intended

  /** An indenting writer that prefixes `INDENT` at the start of every line
      rather than before every fragment: `atStart` says whether the next
      character begins a line. */
  function Pad(s: string, atStart: bool): string
    decreases |s|
  {
    if s == [] then []
    else (if atStart then INDENT else []) + [s[0]] + Pad(s[1..], s[0] == '\n')
  }

  /** Whether a line begins after `s` has been written from state `atStart`. */
  function After(s: string, atStart: bool): bool {
    if s == [] then atStart else s[|s| - 1] == '\n'
  }

  /** Writing `a` and then `b` is writing `a + b`: the intended indenter does
      not depend on how the text is cut into fragments. */
  lemma {:induction false} PadAppend(a: string, b: string, atStart: bool)
    ensures Pad(a + b, atStart) == Pad(a, atStart) + Pad(b, After(a, atStart))
    decreases |a|
  {
    if a == [] {
      assert a + b == b;
    } else {
      var h := (if atStart then INDENT else []) + [a[0]];
      var st := a[0] == '\n';
      assert (a + b)[0] == a[0];
      assert (a + b)[1..] == a[1..] + b;
      PadAppend(a[1..], b, st);
      assert After(a[1..], st) == After(a, atStart) by {
        if |a| > 1 {
          assert a[1..][|a[1..]| - 1] == a[|a| - 1];
        }
      }
      var x := Pad(a[1..], st);
      var y := Pad(b, After(a, atStart));
      Append2(h, x, y);
      calc {
        Pad(a + b, atStart);
        h + Pad(a[1..] + b, st);
        h + (x + y);
        (h + x) + y;
        Pad(a, atStart) + y;
      }
    }
  }

  /** The fragments the intended indenter passes on, one per fragment
      written, with its line state carried from each fragment to the next. */
  function PadFrags(fs: seq<string>, atStart: bool): seq<string>
    decreases |fs|
  {
    if fs == [] then [] else [Pad(fs[0], atStart)] + PadFrags(fs[1..], After(fs[0], atStart))
  }

  /** The text after the intended indenter is the indented text, however it
      was cut into fragments. */
  lemma {:induction false} PadFragsConcat(fs: seq<string>, atStart: bool)
    ensures Concat(PadFrags(fs, atStart)) == Pad(Concat(fs), atStart)
    decreases |fs|
  {
    if fs != [] {
      var st := After(fs[0], atStart);
      var head := Pad(fs[0], atStart);
      var tail := PadFrags(fs[1..], st);
      PadFragsConcat(fs[1..], st);
      ConcatCons(fs);
      ConcatCons(PadFrags(fs, atStart));
      assert PadFrags(fs, atStart)[1..] == tail;
      PadAppend(fs[0], Concat(fs[1..]), atStart);
      calc {
        Concat(PadFrags(fs, atStart));
        head + Concat(tail);
        head + Pad(Concat(fs[1..]), st);
        Pad(fs[0] + Concat(fs[1..]), atStart);
        Pad(Concat(fs), atStart);
      }
    }
  }

  /** The text of a fragment sequence read from the front. */
  lemma ConcatCons(fs: seq<string>)
    requires fs != []
    ensures Concat(fs) == fs[0] + Concat(fs[1..])
  {
    assert fs == [fs[0]] + fs[1..];
    ConcatAppend([fs[0]], fs[1..]);
    assert [fs[0]][..0] == [];
  }

  /** Inside a line, the intended indenter writes characters unchanged. */
  lemma {:induction false} PadInsideLine(l: string)
    requires '\n' !in l
    ensures Pad(l + "\n", false) == l + "\n"
    decreases |l|
  {
    if l != [] {
      assert (l + "\n")[1..] == l[1..] + "\n";
      assert l[0] != '\n';
      PadInsideLine(l[1..]);
    }
  }

  /** One line through the intended indenter gains one `INDENT`. */
  lemma PadLine(l: string)
    requires '\n' !in l
    ensures Pad(l + "\n", true) == INDENT + l + "\n"
  {
    if l == [] {
      assert Pad("\n", true) == INDENT + "\n" + Pad([], true);
    } else {
      assert (l + "\n")[1..] == l[1..] + "\n";
      assert l[0] != '\n';
      PadInsideLine(l[1..]);
      assert [l[0]] + l[1..] == l;
    }
  }

  /** `d` nested intended indenters. */
  function PadNested(d: nat, s: string): string {
    if d == 0 then s else Pad(PadNested(d - 1, s), true)
  }

  /** Each nested layer of the intended indenter adds exactly one `INDENT`
      to a line. */
  lemma {:induction false} PadNestedLine(d: nat, l: string)
    requires '\n' !in l
    ensures PadNested(d, l + "\n") == Repeat(INDENT, d) + l + "\n"
  {
    if d > 0 {
      PadNestedLine(d - 1, l);
      var inner := Repeat(INDENT, d - 1) + l;
      assert '\n' !in inner by {
        assert '\n' !in Repeat(INDENT, d - 1) by {
          RepeatNoNewline(d - 1);
        }
      }
      PadLine(inner);
      RepeatAdd(INDENT, 1, d - 1);
      assert Repeat(INDENT, 1) == INDENT;
    }
  }

  lemma {:induction false} RepeatNoNewline(n: nat)
    ensures '\n' !in Repeat(INDENT, n)
  {
    if n > 0 {
      RepeatNoNewline(n - 1);
    }
  }

  // ---------------------------------------------------------------------
  // Descriptions

  /** As written, comments are written with no line feed after them, so a
      two-line description comes out as one line. */
  lemma DescriptionCounterexample()
    ensures Concat(Render(Base, DescriptionDoc(["a", "b"]))) == "# a# b"
  {
    var d: Description := ["a", "b"];
    assert d[..1] == ["a"] && d[..1][..0] == [];
    assert Lines(d[..1], CommentDoc) == Cat(Empty, CommentDoc("a"));
    assert DescriptionDoc(d) == Cat(Cat(Empty, CommentDoc("a")), CommentDoc("b"));
    assert Render(Base, DescriptionDoc(d)) == ["# ", "a"] + ["# ", "b"];
    ConcatAppend(["# ", "a"], ["# ", "b"]);
    assert ["# ", "a"][..1] == ["# "] && ["# "][..0] == [];
    assert ["# ", "b"][..1] == ["# "];
  }

  /** The intended comment line: `writeln!` where the source has `write!`. */
  function CommentLine(comment: string): string {
    "# " + comment + "\n"
  }

  /** The intended description: one comment line per comment. */
  function DescriptionText(d: Description): string
    decreases |d|
  {
    if d == [] then [] else CommentLine(d[0]) + DescriptionText(d[1..])
  }

  /** A comment as the parser returns it: trimmed and on one line. */
  predicate Clean(comment: string) {
    && '\n' !in comment
    && (comment != [] ==> NotWhitespace(comment[0]) && NotWhitespace(comment[|comment| - 1]))
  }

  /** Trimming a space and a clean comment leaves the comment. */
  lemma TrimClean(comment: string)
    requires Clean(comment)
    ensures Trim(" " + comment) == comment
  {
    var s := " " + comment;
    assert Span(IsWhitespace, s, 0) == 1 by {
      assert Span(IsWhitespace, s, 1) == 0 by {
        if comment != [] {
          assert s[1] == comment[0];
        }
      }
    }
    assert s[1..] == comment;
    assert SpanBack(IsWhitespace, comment) == 0;
  }

  /** `take_until("\n")` at a line `l` and its line feed takes `l`. */
  lemma UntilNewline(text: string, i: nat, l: string)
    requires '\n' !in l
    requires i + |l| < |text|
    requires text[i..i + |l|] == l && text[i + |l|] == '\n'
    ensures TakeUntilNewline(Cursor(text, i)) == Some(Parsed(l, Cursor(text, i + |l|)))
  {
    SliceAt(text, i, l);
    SpanExact(NotNewline, text, i, |l|);
  }

  /** `comment` read step by step: no indent, a `#`, the rest of the line
      and its line feed. */
  lemma CommentSteps(c: Input, body: string, c1: Input, c2: Input, c3: Input)
    requires Indent(c).None?
    requires Char('#', c) == Some(Parsed('#', c1))
    requires TakeUntilNewline(c1) == Some(Parsed(body, c2))
    requires Eol(c2) == Some(Parsed('\n', c3))
    ensures ParseComment(c) == Some(Parsed(Trim(body), c3))
  {
    assert Opt(Indent, c).value.rest == c;
  }

  /** Where the intended comment line stands: its `#`, its body and its
      line feed. */
  lemma CommentLineAt(text: string, pos: nat, comment: string)
    requires pos + |CommentLine(comment)| <= |text|
    requires text[pos..pos + |CommentLine(comment)|] == CommentLine(comment)
    ensures text[pos] == '#'
    ensures text[pos + 1..pos + 2 + |comment|] == " " + comment
    ensures text[pos + 2 + |comment|] == '\n'
  {
    var body := " " + comment;
    var nl := pos + 1 + |body|;
    assert CommentLine(comment) == "#" + body + "\n";
    SliceSplit(text, pos, "#" + body, "\n");
    SliceSplit(text, pos, "#", body);
    assert text[pos] == text[pos..pos + 1][0];
    assert text[nl] == text[nl..nl + 1][0];
  }

  /** The intended comment line reads back as its comment, wherever it
      stands in the text. */
  lemma CommentRoundTrip(text: string, pos: nat, comment: string)
    requires Clean(comment)
    requires pos + |CommentLine(comment)| <= |text|
    requires text[pos..pos + |CommentLine(comment)|] == CommentLine(comment)
    ensures ParseComment(Cursor(text, pos)) == Some(Parsed(comment, Cursor(text, pos + |CommentLine(comment)|)))
  {
    CommentLineAt(text, pos, comment);
    var nl := pos + 2 + |comment|;
    var c: Input := Cursor(text, pos);
    assert Indent(c).None?;
    assert Char('#', c) == Some(Parsed('#', Cursor(text, pos + 1)));
    UntilNewline(text, pos + 1, " " + comment);
    assert Eol(Cursor(text, nl)) == Some(Parsed('\n', Cursor(text, nl + 1)));
    CommentSteps(c, " " + comment, Cursor(text, pos + 1), Cursor(text, nl), Cursor(text, nl + 1));
    TrimClean(comment);
  }

  /** The intended line of `comment` stands at `pos`. */
  ghost predicate LineAt(text: string, pos: nat, comment: string) {
    pos + |CommentLine(comment)| <= |text| && text[pos..pos + |CommentLine(comment)|] == CommentLine(comment)
  }

  /** `p` reads every intended comment line in `text` back as its comment. */
  ghost predicate ReadsLines(p: Parser<string>, text: string) {
    forall pos: nat, comment: string | LineAt(text, pos, comment) && Clean(comment) ::
      p(Cursor(text, pos)) == Some(Parsed(comment, Cursor(text, pos + |CommentLine(comment)|)))
  }

  /** The comment lines of `d` stand one after another from `pos`, and the
      last ends at `end`. */
  ghost predicate LinesAt(text: string, pos: nat, d: Description, end: nat)
    decreases |d|
  {
    if d == [] then pos == end
    else LineAt(text, pos, d[0]) && LinesAt(text, pos + |CommentLine(d[0])|, d[1..], end)
  }

  /** The intended description, found in `text`, lays out its lines. */
  lemma {:induction false} DescriptionLines(text: string, pos: nat, d: Description)
    requires pos + |DescriptionText(d)| <= |text|
    requires text[pos..pos + |DescriptionText(d)|] == DescriptionText(d)
    ensures LinesAt(text, pos, d, pos + |DescriptionText(d)|)
    decreases |d|
  {
    if d != [] {
      var line := CommentLine(d[0]);
      var tail := DescriptionText(d[1..]);
      assert DescriptionText(d) == line + tail;
      SliceSplit(text, pos, line, tail);
      DescriptionLines(text, pos + |line|, d[1..]);
    }
  }

  /** `comment` reads every intended comment line back. */
  lemma CommentsReadLines(text: string)
    ensures ReadsLines(ParseComment, text)
  {
    forall pos: nat, comment: string | LineAt(text, pos, comment) && Clean(comment)
      ensures ParseComment(Cursor(text, pos)) == Some(Parsed(comment, Cursor(text, pos + |CommentLine(comment)|)))
    {
      CommentRoundTrip(text, pos, comment);
    }
  }

  /** Lines that `p` reads back, laid out one after another, form a chain
      of results of `p`. */
  lemma {:induction false} LinesChain(p: Parser<string>, text: string, pos: nat, d: Description, end: nat)
    requires ReadsLines(p, text)
    requires forall k | 0 <= k < |d| :: Clean(d[k])
    requires LinesAt(text, pos, d, end)
    requires end <= |text| && p(Cursor(text, end)).None?
    ensures pos <= end
    ensures Chain(p, Cursor(text, pos), d, Cursor(text, end))
    decreases |d|
  {
    if d != [] {
      var next := pos + |CommentLine(d[0])|;
      LinesChain(p, text, next, d[1..], end);
      assert p(Cursor(text, pos)) == Some(Parsed(d[0], Cursor(text, next)));
      ChainCons(p, Cursor(text, pos), d[0], Cursor(text, next), d[1..], Cursor(text, end));
      assert [d[0]] + d[1..] == d;
    }
  }

  /** The intended description reads back as its comments, in order, when
      the line after it is not a comment. */
  lemma DescriptionRoundTrip(text: string, pos: nat, d: Description)
    requires forall k | 0 <= k < |d| :: Clean(d[k])
    requires pos + |DescriptionText(d)| <= |text|
    requires text[pos..pos + |DescriptionText(d)|] == DescriptionText(d)
    requires ParseComment(Cursor(text, pos + |DescriptionText(d)|)).None?
    ensures ParseDescription(Cursor(text, pos)) == Some(Parsed(d, Cursor(text, pos + |DescriptionText(d)|)))
  {
    var c: Input := Cursor(text, pos);
    var end := pos + |DescriptionText(d)|;
    DescriptionLines(text, pos, d);
    CommentsReadLines(text);
    LinesChain(ParseComment, text, pos, d, end);
    Many0Total(ParseComment, c);
    Many0Chain(ParseComment, c, d, Cursor(text, end));
  }
}
