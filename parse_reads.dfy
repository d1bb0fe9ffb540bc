/** What each line of the grammar (src/parse.rs) reads from a text whose
    lines are known: the value it yields and where it stops. A line is
    given by the string the text holds where it starts, for instance
    `At(text, q, ind + "redirect" + " " + to + "\n")`.

    Each line is taken in three layers: lemmas that read the primitive
    steps (`Indent`, `Tag`, `Char`, `TakeWhile`, `Eol`) off the line, a
    lemma that assembles the rule from the results of its steps, and the
    lemma over the whole line that joins the two. */
module ParseReads {
  import opened Wrappers
  import opened Combinators
  import opened Lexer
  import opened Pdl
  import opened Decimal
  import opened Parse
  import opened ParseProps
  import opened Slices

  // ---------------------------------------------------------------------
  // Lines of the form `<indent><kw> <rest>`

  /** An indented line holding a keyword, a space and a word. */
  function KeyedLine(ind: string, kw: string, s: string): string {
    ind + kw + " " + s + "\n"
  }

  /** The pieces of a `KeyedLine`. */
  lemma KeyedPieces(text: string, q: nat, ind: string, kw: string, s: string)
    requires At(text, q, KeyedLine(ind, kw, s))
    ensures At(text, q, ind) && At(text, q + |ind|, kw) && At(text, q + |ind| + |kw|, " ")
    ensures At(text, q + |ind| + |kw| + 1, s) && At(text, q + |ind| + |kw| + 1 + |s|, "\n")
  {
    AtSplit(text, q, ind + kw + " " + s, "\n");
    AtSplit(text, q, ind + kw + " ", s);
    AtSplit(text, q, ind + kw, " ");
    AtSplit(text, q, ind, kw);
  }

  /** The indent, the keyword and the space of a `KeyedLine`. */
  lemma KeyedFront(text: string, q: nat, ind: string, kw: string, s: string)
    requires IsIndent(ind) && kw != [] && !IsBlank(kw[0])
    requires At(text, q, KeyedLine(ind, kw, s))
    ensures Indent(Cursor(text, q)) == Some(Parsed(ind, Cursor(text, q + |ind|)))
    ensures Tag(kw, Cursor(text, q + |ind|)) == Some(Parsed(kw, Cursor(text, q + |ind| + |kw|)))
    ensures Char(' ', Cursor(text, q + |ind| + |kw|)) == Some(Parsed(' ', Cursor(text, q + |ind| + |kw| + 1)))
  {
    KeyedPieces(text, q, ind, kw, s);
    IndentThen(text, q, ind, kw);
    KeywordThenSpace(kw, text, q + |ind|);
  }

  /** The token and the line feed of a `KeyedLine`. */
  lemma KeyedToken(text: string, q: nat, ind: string, kw: string, s: string)
    requires IsToken(s)
    requires At(text, q, KeyedLine(ind, kw, s))
    ensures TakeWhile(NotWhitespace, Cursor(text, q + |ind| + |kw| + 1))
      == Some(Parsed(s, Cursor(text, q + |ind| + |kw| + 1 + |s|)))
    ensures Eol(Cursor(text, q + |ind| + |kw| + 1 + |s|)) == Some(Parsed('\n', Cursor(text, q + |KeyedLine(ind, kw, s)|)))
  {
    KeyedPieces(text, q, ind, kw, s);
    TokenThenEol(text, q + |ind| + |kw| + 1, s);
  }

  /** The digit run and the line feed of a `KeyedLine`. */
  lemma KeyedDigits(text: string, q: nat, ind: string, kw: string, ds: string)
    requires AllDigits(ds)
    requires At(text, q, KeyedLine(ind, kw, ds))
    ensures TakeWhile(IsDigit, Cursor(text, q + |ind| + |kw| + 1))
      == Some(Parsed(ds, Cursor(text, q + |ind| + |kw| + 1 + |ds|)))
    ensures Eol(Cursor(text, q + |ind| + |kw| + 1 + |ds|)) == Some(Parsed('\n', Cursor(text, q + |KeyedLine(ind, kw, ds)|)))
  {
    KeyedPieces(text, q, ind, kw, ds);
    var p := q + |ind| + |kw| + 1;
    AtSlice(text, p, ds);
    AtFirst(text, p + |ds|, "\n");
    TakeWhileAt(IsDigit, text, p, ds);
  }

  /** `NameLine` from the results of its steps. */
  lemma NameLineSteps(kw: string, c: Input, i: Input, k: Input, s: Input, n: Input, e: Input, ind: string, name: string)
    requires Indent(c) == Some(Parsed(ind, i)) && Tag(kw, i) == Some(Parsed(kw, k))
    requires Char(' ', k) == Some(Parsed(' ', s)) && TakeWhile(NotWhitespace, s) == Some(Parsed(name, n))
    requires Eol(n) == Some(Parsed('\n', e))
    ensures NameLine(kw, c) == Some(Parsed(name, e))
  {
  }

  /** A `KeyedLine` whose word is a token reads as that word and stops
      after the line feed. */
  lemma NameLineAt(text: string, q: nat, ind: string, kw: string, name: string)
    requires IsIndent(ind) && IsToken(name) && kw != [] && !IsBlank(kw[0])
    requires At(text, q, KeyedLine(ind, kw, name))
    ensures NameLine(kw, Cursor(text, q)) == Some(Parsed(name, Cursor(text, q + |KeyedLine(ind, kw, name)|)))
  {
    KeyedFront(text, q, ind, kw, name);
    KeyedToken(text, q, ind, kw, name);
    NameLineSteps(kw, Cursor(text, q), Cursor(text, q + |ind|), Cursor(text, q + |ind| + |kw|),
      Cursor(text, q + |ind| + |kw| + 1), Cursor(text, q + |ind| + |kw| + 1 + |name|),
      Cursor(text, q + |KeyedLine(ind, kw, name)|), ind, name);
  }

  /** `depends_on` reads the name on an indented `depends on <name>` line
      and stops after the line feed. */
  lemma DependsOnAt(text: string, q: nat, ind: string, name: string)
    requires IsIndent(ind) && IsToken(name)
    requires At(text, q, KeyedLine(ind, "depends on", name))
    ensures ParseDependsOn(Cursor(text, q)) == Some(Parsed(name, Cursor(text, q + |KeyedLine(ind, "depends on", name)|)))
  {
    NameLineAt(text, q, ind, "depends on", name);
  }

  // ---------------------------------------------------------------------
  // Modifier prefixes and types

  /** `experimental` clashes with `deprecated ` and with `optional `, and
      so on: no modifier keyword starts another. */
  lemma ModifierClashes()
    ensures Clash("deprecated ", "experimental ")
    ensures Clash("optional ", "experimental ") && Clash("optional ", "deprecated ")
    ensures "experimental" + " " == "experimental " && "deprecated" + " " == "deprecated "
    ensures "optional" + " " == "optional " && "array of" + " " == "array of "
  {
    assert "deprecated "[0] != "experimental "[0];
    assert "optional "[0] != "experimental "[0];
    assert "optional "[0] != "deprecated "[0];
  }

  /** `Flags` from the results of its probes. */
  lemma FlagsFromProbes(c: Input, x: Parsed<bool>, d: Parsed<bool>)
    requires Optional("experimental", c).value == x && Optional("deprecated", x.rest).value == d
    ensures Flags(c) == Some(Parsed((x.value, d.value), d.rest))
  {
  }

  /** The `experimental` and `deprecated` prefixes written before `after`,
      which starts with neither keyword, read back as the two flags and
      stop at `after`. */
  lemma FlagsAt(text: string, p: nat, x: bool, d: bool, after: string)
    requires At(text, p, FlagText(x, d) + after)
    requires Clash(after, "experimental ") && Clash(after, "deprecated ")
    ensures Flags(Cursor(text, p)) == Some(Parsed((x, d), Cursor(text, p + |FlagText(x, d)|)))
    ensures At(text, p + |FlagText(x, d)|, after)
  {
    ModifierClashes();
    TwoProbesAt("experimental", "deprecated", text, p, x, d, after);
    var p1 := p + |Modifier(x, "experimental")|;
    FlagsFromProbes(Cursor(text, p), Parsed(x, Cursor(text, p1)), Parsed(d, Cursor(text, p1 + |Modifier(d, "deprecated")|)));
  }

  /** The two flags before a text that starts with neither of them; `p2`
      is where the flags end. */
  lemma FlagsBefore(text: string, p: nat, x: bool, d: bool, after: string, p2: nat)
    requires Clash(after, "experimental ") && Clash(after, "deprecated ")
    requires At(text, p, FlagText(x, d) + after) && p2 == p + |FlagText(x, d)|
    ensures Flags(Cursor(text, p)) == Some(Parsed((x, d), Cursor(text, p2)))
    ensures At(text, p2, after)
  {
    FlagsAt(text, p, x, d, after);
  }

  /** `ParamModifiers` from the results of `Flags` and of the `optional`
      probe after it. */
  lemma ModifiersFromParts(c: Input, f: Parsed<(bool, bool)>, o: Parsed<bool>)
    requires Flags(c) == Some(f) && Optional("optional", f.rest).value == o
    ensures ParamModifiers(c) == Some(Parsed((f.value.0, f.value.1, o.value), o.rest))
  {
  }

  /** Text that starts with an optional `optional ` and then none of the
      keywords starts with neither flag keyword. */
  lemma OptionalRestClashes(o: bool, after: string)
    requires Clash(after, "experimental ") && Clash(after, "deprecated ")
    ensures Clash(Modifier(o, "optional") + after, "experimental ")
    ensures Clash(Modifier(o, "optional") + after, "deprecated ")
  {
    if o {
      ModifierClashes();
      ClashLonger("optional ", after, "experimental ");
      ClashLonger("optional ", after, "deprecated ");
    }
  }

  /** The three modifiers of a parameter, written in the fixed order before
      `after`, which starts with none of the keywords, read back as the
      three flags and stop at `after`, at `p3`. */
  lemma ModifiersAt(text: string, p: nat, x: bool, d: bool, o: bool, after: string, p3: nat)
    requires At(text, p, FlagText(x, d) + Modifier(o, "optional") + after)
    requires Clash(after, "experimental ") && Clash(after, "deprecated ") && Clash(after, "optional ")
    requires p3 == p + |FlagText(x, d)| + |Modifier(o, "optional")|
    ensures ParamModifiers(Cursor(text, p)) == Some(Parsed((x, d, o), Cursor(text, p3)))
    ensures At(text, p3, after)
  {
    Assoc(FlagText(x, d), Modifier(o, "optional"), after);
    OptionalRestClashes(o, after);
    var p2 := p + |FlagText(x, d)|;
    FlagsBefore(text, p, x, d, Modifier(o, "optional") + after, p2);
    ProbeAt("optional", text, p2, o, after, p3);
    ModifiersFromParts(Cursor(text, p), Parsed((x, d), Cursor(text, p2)), Parsed(o, Cursor(text, p3)));
  }

  /** The text of a type token: `array of ` before it when the flag is set. */
  function TySource(s: string, isArray: bool): string {
    (if isArray then "array of " else "") + s
  }

  /** `ParseTy` from the results of its two steps. */
  lemma TyFromSteps(c: Input, a: Parsed<bool>, t: Parsed<string>)
    requires Optional("array of", c).value == a && TakeWhile(NotWhitespace, a.rest).value == t
    ensures ParseTy(c) == Some(Parsed(NewTy(t.value, a.value), t.rest))
  {
  }

  /** The optional `array of ` prefix of a type token; `p1` is where the
      token starts. */
  lemma ArrayPrefixAt(text: string, p: nat, s: string, isArray: bool, after: string, p1: nat)
    requires IsToken(s) && At(text, p, TySource(s, isArray) + after)
    requires isArray || Clash(s + after, "array of ")
    requires p1 == p + if isArray then 9 else 0
    ensures Optional("array of", Cursor(text, p)).value == Parsed(isArray, Cursor(text, p1))
    ensures At(text, p1, s + after)
  {
    ModifierClashes();
    if isArray {
      Assoc("array of ", s, after);
      AtSplit(text, p, "array of ", s + after);
      OptionalHit("array of", text, p, s + after);
    } else {
      assert TySource(s, isArray) + after == s + after;
      OptionalClash("array of", text, p, s + after);
    }
  }

  /** A token before a text that starts with whitespace; `p4` is where the
      token ends. */
  lemma TokenAt(text: string, p: nat, s: string, after: string, p4: nat)
    requires IsToken(s) && after != [] && IsWhitespace(after[0])
    requires At(text, p, s + after) && p4 == p + |s|
    ensures p4 <= |text|
    ensures TakeWhile(NotWhitespace, Cursor(text, p)) == Some(Parsed(s, Cursor(text, p4)))
    ensures At(text, p4, after)
  {
    AtSplit(text, p, s, after);
    AtSlice(text, p, s);
    AtFirst(text, p4, after);
    TakeWhileAt(NotWhitespace, text, p, s);
  }

  /** `ty` at the text of a type token followed by whitespace reads the type
      `Ty::new` resolves it to, and stops after the token, at `p4`. Without
      the array flag the text must not start with `array of `. */
  lemma TyAt(text: string, p: nat, s: string, isArray: bool, after: string, p4: nat)
    requires IsToken(s) && after != [] && IsWhitespace(after[0])
    requires At(text, p, TySource(s, isArray) + after) && p4 == p + |TySource(s, isArray)|
    requires isArray || Clash(s + after, "array of ")
    ensures p4 <= |text|
    ensures ParseTy(Cursor(text, p)) == Some(Parsed(NewTy(s, isArray), Cursor(text, p4)))
    ensures At(text, p4, after)
  {
    var p1 := p + if isArray then 9 else 0;
    ArrayPrefixAt(text, p, s, isArray, after, p1);
    TokenAt(text, p1, s, after, p4);
    TyFromSteps(Cursor(text, p), Parsed(isArray, Cursor(text, p1)), Parsed(s, Cursor(text, p4)));
  }

  /** A type token never reads as the `array of ` prefix when a line feed,
      or a space and a name, follows it. */
  lemma NotArrayPrefix(s: string, name: string)
    requires IsToken(s) && IsToken(name)
    ensures Clash(s + "\n", "array of ")
    ensures Clash(s + (" " + name + "\n"), "array of ")
  {
    assert IsToken("array") && IsToken("of");
    TokenClash("array", s, "\n");
    ClashRight(s + "\n", "array ", "of ");
    assert "array " + "of " == "array of ";
    var after := " " + name + "\n";
    if s != "array" {
      TokenClash("array", s, after);
      ClashRight(s + after, "array ", "of ");
    } else {
      TokenClash("of", name, "\n");
      ClashShift("array ", name + "\n", "of ");
      assert "array " + (name + "\n") == s + after;
      assert "array " + "of " == "array of ";
    }
  }

  // ---------------------------------------------------------------------
  // The version block

  /** An indented `<key> <digits>` line reads as the value of its digits
      exactly when the run is not empty and fits in a `usize`; otherwise
      the line fails. */
  lemma VersionLineAt(text: string, q: nat, ind: string, key: string, ds: string)
    requires IsIndent(ind) && AllDigits(ds) && key != [] && !IsBlank(key[0])
    requires At(text, q, KeyedLine(ind, key, ds))
    ensures VersionLine(key, Cursor(text, q)).Some? <==> ds != [] && DigitsValue(ds) <= UsizeMax
    ensures VersionLine(key, Cursor(text, q)).Some? ==>
      && VersionLine(key, Cursor(text, q)).value.value == DigitsValue(ds)
      && VersionLine(key, Cursor(text, q)).value.rest == Cursor(text, q + |KeyedLine(ind, key, ds)|)
  {
    KeyedFront(text, q, ind, key, ds);
    KeyedDigits(text, q, ind, key, ds);
    VersionLineSteps(key, Cursor(text, q), Parsed(ind, Cursor(text, q + |ind|)), Parsed(key, Cursor(text, q + |ind| + |key|)),
      Parsed(' ', Cursor(text, q + |ind| + |key| + 1)), Parsed(ds, Cursor(text, q + |ind| + |key| + 1 + |ds|)),
      Parsed('\n', Cursor(text, q + |KeyedLine(ind, key, ds)|)));
  }

  /** A number written in decimal on a version line reads back as the
      number, when it fits in a `usize`. */
  lemma VersionNumberAt(text: string, q: nat, ind: string, key: string, n: nat)
    requires IsIndent(ind) && key != [] && !IsBlank(key[0]) && n <= UsizeMax
    requires At(text, q, KeyedLine(ind, key, DecimalString(n)))
    ensures VersionLine(key, Cursor(text, q)).Some?
    ensures VersionLine(key, Cursor(text, q)).value.value == n
    ensures VersionLine(key, Cursor(text, q)).value.rest == Cursor(text, q + |KeyedLine(ind, key, DecimalString(n))|)
  {
    DecimalRoundTrip(n);
    VersionLineAt(text, q, ind, key, DecimalString(n));
  }

  /** The `version` line, then the two lines of the block. */
  lemma VersionPieces(text: string, q: nat, line1: string, line2: string)
    requires At(text, q, "version\n" + line1 + line2)
    ensures Tag("version", Cursor(text, q)) == Some(Parsed("version", Cursor(text, q + 7)))
    ensures Eol(Cursor(text, q + 7)) == Some(Parsed('\n', Cursor(text, q + 8)))
    ensures At(text, q + 8, line1) && At(text, q + 8 + |line1|, line2)
  {
    AtSplit(text, q, "version\n" + line1, line2);
    AtSplit(text, q, "version\n", line1);
    assert "version\n" == "version" + "\n";
    AtSplit(text, q, "version", "\n");
    KeywordThenEol("version", text, q);
  }

  /** A version block: the `version` line, then the `major` and `minor`
      lines with their digit runs. */
  function VersionBlock(ind1: string, ds1: string, ind2: string, ds2: string): string {
    "version\n" + KeyedLine(ind1, "major", ds1) + KeyedLine(ind2, "minor", ds2)
  }

  /** A version block whose `major` and `minor` lines hold runs of digits
      reads as their values when both are non-empty and fit in a `usize`,
      and stops after the block, at `end`. */
  lemma VersionDigitsAt(text: string, q: nat, ind1: string, ds1: string, ind2: string, ds2: string, end: nat)
    requires IsIndent(ind1) && IsIndent(ind2) && AllDigits(ds1) && AllDigits(ds2)
    requires ds1 != [] && DigitsValue(ds1) <= UsizeMax && ds2 != [] && DigitsValue(ds2) <= UsizeMax
    requires At(text, q, VersionBlock(ind1, ds1, ind2, ds2)) && end == q + |VersionBlock(ind1, ds1, ind2, ds2)|
    ensures q <= end <= |text|
    ensures ParseVersion(Cursor(text, q)) == Some(Parsed((DigitsValue(ds1), DigitsValue(ds2)), Cursor(text, end)))
  {
    var line1 := KeyedLine(ind1, "major", ds1);
    var line2 := KeyedLine(ind2, "minor", ds2);
    var q1 := q + 8 + |line1|;
    assert end == q1 + |line2|;
    VersionPieces(text, q, line1, line2);
    VersionLineAt(text, q + 8, ind1, "major", ds1);
    VersionLineAt(text, q1, ind2, "minor", ds2);
    var major := VersionLine("major", Cursor(text, q + 8)).value;
    var minor := VersionLine("minor", Cursor(text, q1)).value;
    assert major == Parsed(DigitsValue(ds1), Cursor(text, q1));
    assert minor == Parsed(DigitsValue(ds2), Cursor(text, end));
    VersionSteps(Cursor(text, q), Parsed("version", Cursor(text, q + 7)), Parsed('\n', Cursor(text, q + 8)), major, minor);
  }

  /** A version block that writes two numbers in decimal, each fitting in a
      `usize`, reads back as those numbers and stops after the block, at
      `end`. */
  lemma VersionAt(text: string, q: nat, ind1: string, major: nat, ind2: string, minor: nat, end: nat)
    requires IsIndent(ind1) && IsIndent(ind2) && major <= UsizeMax && minor <= UsizeMax
    requires At(text, q, VersionBlock(ind1, DecimalString(major), ind2, DecimalString(minor)))
    requires end == q + |VersionBlock(ind1, DecimalString(major), ind2, DecimalString(minor))|
    ensures q <= end <= |text|
    ensures ParseVersion(Cursor(text, q)) == Some(Parsed((major, minor), Cursor(text, end)))
  {
    DecimalRoundTrip(major);
    DecimalRoundTrip(minor);
    VersionDigitsAt(text, q, ind1, DecimalString(major), ind2, DecimalString(minor), end);
  }
}
