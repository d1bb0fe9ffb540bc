/** What the declaration rules of the grammar (src/parse.rs) read, given
    the lines of the text. A declaration starts with its description, and
    each lemma takes what `description` read (`DescriptionRoundTrip`
    shows what that is for comment lines) and the line after it; the
    children of a block are stated as a `Chain` of their rule: read one
    after another, each consuming something, until the rule fails. */
module ParseRules {
  import opened Wrappers
  import opened Combinators
  import opened Lexer
  import opened Pdl
  import opened Decimal
  import opened Parse
  import opened Slices
  import opened ParseReads
  import opened ParseLines
  import opened ParseProps

  // ---------------------------------------------------------------------
  // Variants, redirects and parameters

  /** `variant` reads the description before it and the token alone on
      its indented line. */
  lemma VariantAt(text: string, q: nat, desc: Description, q1: nat, ind: string, name: string, end: nat)
    requires q <= q1 <= |text|
    requires ParseDescription(Cursor(text, q)) == Some(Parsed(desc, Cursor(text, q1)))
    requires IsIndent(ind) && name != [] && IsToken(name)
    requires At(text, q1, ind + name + "\n") && end == q1 + |ind| + |name| + 1
    ensures ParseVariant(Cursor(text, q)) == Some(Parsed(Variant(desc, name), Cursor(text, end)))
  {
    VariantLineAt(text, q1, ind, name);
  }

  /** `redirect` reads the description before it and the domain named on
      its indented `redirect <domain>` line. */
  lemma RedirectAt(text: string, q: nat, desc: Description, q1: nat, ind: string, to: string, end: nat)
    requires q <= q1 <= |text|
    requires ParseDescription(Cursor(text, q)) == Some(Parsed(desc, Cursor(text, q1)))
    requires IsIndent(ind) && IsToken(to)
    requires At(text, q1, KeyedLine(ind, "redirect", to)) && end == q1 + |KeyedLine(ind, "redirect", to)|
    ensures ParseRedirect(Cursor(text, q)) == Some(Parsed(Redirect(desc, to), Cursor(text, end)))
  {
    NameLineTo(text, q1, ind, "redirect", to, end);
    RedirectFromParts(Cursor(text, q), Parsed(desc, Cursor(text, q1)), Parsed(to, Cursor(text, end)));
  }

  /** `NameLineAt` with the place it stops given as `end`. */
  lemma NameLineTo(text: string, q: nat, ind: string, kw: string, name: string, end: nat)
    requires IsIndent(ind) && IsToken(name) && kw != [] && !IsBlank(kw[0])
    requires At(text, q, KeyedLine(ind, kw, name)) && end == q + |KeyedLine(ind, kw, name)|
    ensures q <= end <= |text|
    ensures NameLine(kw, Cursor(text, q)) == Some(Parsed(name, Cursor(text, end)))
  {
    NameLineAt(text, q, ind, kw, name);
  }

  /** `ParseRedirect` from what its description and its line read. */
  lemma RedirectFromParts(c: Input, d: Parsed<Description>, line: Parsed<string>)
    requires ParseDescription(c) == Some(d) && NameLine("redirect", d.rest) == Some(line)
    ensures ParseRedirect(c) == Some(Parsed(Redirect(d.value, line.value), line.rest))
  {
  }

  /** The declaration of a parameter reads as its description, its flags,
      the type `Ty::new` resolves its type text to, and its name. */
  lemma ParamHeadAt(text: string, q: nat, desc: Description, q1: nat, ind: string,
                    x: bool, d: bool, o: bool, s: string, isArray: bool, name: string, end: nat)
    requires q <= q1 <= |text|
    requires ParseDescription(Cursor(text, q)) == Some(Parsed(desc, Cursor(text, q1)))
    requires IsIndent(ind) && IsToken(s) && s != [] && IsToken(name) && name != []
    requires !isArray ==> s != "experimental" && s != "deprecated" && s != "optional"
    requires At(text, q1, ind + ParamText(x, d, o, s, isArray, name))
    requires end == q1 + |ind| + |ParamText(x, d, o, s, isArray, name)|
    ensures ParseParamHead(Cursor(text, q))
      == Some(Parsed(Param(desc, x, d, o, NewTy(s, isArray), name), Cursor(text, end)))
  {
    ParamLineAt(text, q1, ind, x, d, o, s, isArray, name, end);
  }

  /** A parameter whose type is not a bare `enum` is its declaration
      alone. */
  lemma ParamAt(text: string, q: nat, desc: Description, q1: nat, ind: string,
                x: bool, d: bool, o: bool, s: string, isArray: bool, name: string, end: nat)
    requires q <= q1 <= |text|
    requires ParseDescription(Cursor(text, q)) == Some(Parsed(desc, Cursor(text, q1)))
    requires IsIndent(ind) && IsToken(s) && s != [] && IsToken(name) && name != []
    requires !isArray ==> s != "experimental" && s != "deprecated" && s != "optional" && s != "enum"
    requires At(text, q1, ind + ParamText(x, d, o, s, isArray, name))
    requires end == q1 + |ind| + |ParamText(x, d, o, s, isArray, name)|
    ensures ParseParam(Cursor(text, q))
      == Some(Parsed(Param(desc, x, d, o, NewTy(s, isArray), name), Cursor(text, end)))
  {
    ParamHeadAt(text, q, desc, q1, ind, x, d, o, s, isArray, name, end);
    EnumParamVariants(Cursor(text, q));
  }

  /** A parameter declared with a bare `enum` type takes the variant
      lines after it as its variants: it reads `vs` and stops at `e`
      exactly when `vs` is not empty and `variant` reads `vs` one after
      another from the end of the declaration line and fails at `e`. */
  lemma EnumParamAt(text: string, q: nat, desc: Description, q1: nat, ind: string,
                    x: bool, d: bool, o: bool, name: string, end: nat, vs: seq<Variant>, e: Input)
    requires q <= q1 <= |text|
    requires ParseDescription(Cursor(text, q)) == Some(Parsed(desc, Cursor(text, q1)))
    requires IsIndent(ind) && IsToken(name) && name != []
    requires At(text, q1, ind + ParamText(x, d, o, "enum", false, name))
    requires end == q1 + |ind| + |ParamText(x, d, o, "enum", false, name)|
    ensures ParseParam(Cursor(text, q)) == Some(Parsed(Param(desc, x, d, o, Ty.Enum(vs), name), e))
      <==> vs != [] && Chain(ParseVariant, Cursor(text, end), vs, e)
  {
    EnumWord();
    ParamHeadAt(text, q, desc, q1, ind, x, d, o, "enum", false, name, end);
    EnumParamChain(text, q, end, desc, x, d, o, name, vs, e);
  }

  /** `enum` is a type word of a parameter line. */
  lemma EnumWord()
    ensures IsToken("enum") && "enum" != []
    ensures "enum" != "experimental" && "enum" != "deprecated" && "enum" != "optional"
  {
    forall k | 0 <= k < 4
      ensures NotWhitespace("enum"[k])
    {
    }
  }

  /** After a declaration of type `enum`, a parameter holds the chain of
      its variants. */
  lemma EnumParamChain(text: string, q: nat, end: nat, desc: Description, x: bool, d: bool, o: bool, name: string,
                       vs: seq<Variant>, e: Input)
    requires q <= end <= |text|
    requires ParseParamHead(Cursor(text, q)) == Some(Parsed(Param(desc, x, d, o, Ty.Enum([]), name), Cursor(text, end)))
    ensures ParseParam(Cursor(text, q)) == Some(Parsed(Param(desc, x, d, o, Ty.Enum(vs), name), e))
      <==> vs != [] && Chain(ParseVariant, Cursor(text, end), vs, e)
  {
    var h := Param(desc, x, d, o, Ty.Enum([]), name);
    assert h.(ty := Ty.Enum(vs)) == Param(desc, x, d, o, Ty.Enum(vs), name);
    EnumVariantsChain(Cursor(text, q), h, Cursor(text, end), vs, e);
  }

  /** `EnumParamChain` over any input: a parameter whose declaration reads
      a bare `enum` takes the variants `Many1` reads after it. */
  lemma EnumVariantsChain(c: Input, h: Param, c1: Input, vs: seq<Variant>, e: Input)
    requires h.ty == Ty.Enum([]) && ParseParamHead(c) == Some(Parsed(h, c1))
    ensures ParseParam(c) == Some(Parsed(h.(ty := Ty.Enum(vs)), e)) <==> vs != [] && Chain(ParseVariant, c1, vs, e)
  {
    var m := Many1(ParseVariant, c1);
    EnumVariantsOf(c, h, c1);
    Many1Chain(ParseVariant, c1, vs, e);
    if ParseParam(c) == Some(Parsed(h.(ty := Ty.Enum(vs)), e)) {
      assert h.(ty := Ty.Enum(vs)).ty == h.(ty := Ty.Enum(m.value.value)).ty;
    }
  }

  /** A parameter whose declaration reads a bare `enum` fails exactly when
      `Many1` reads no variant after it, and otherwise takes those variants
      and stops where `Many1` stops. */
  lemma EnumVariantsOf(c: Input, h: Param, c1: Input)
    requires h.ty == Ty.Enum([]) && ParseParamHead(c) == Some(Parsed(h, c1))
    ensures Many1(ParseVariant, c1).None? ==> ParseParam(c).None?
    ensures Many1(ParseVariant, c1).Some? ==>
      ParseParam(c) == Some(Parsed(h.(ty := Ty.Enum(Many1(ParseVariant, c1).value.value)), Many1(ParseVariant, c1).value.rest))
  {
    var m := Many1(ParseVariant, c1);
    if m.Some? {
      EnumVariantsRead(c, h, c1, m.value.value, m.value.rest);
    }
  }

  /** `EnumVariantsOf` when `Many1` reads `vs` and stops at `e`. */
  lemma EnumVariantsRead(c: Input, h: Param, c1: Input, vs: seq<Variant>, e: Input)
    requires h.ty == Ty.Enum([]) && ParseParamHead(c) == Some(Parsed(h, c1))
    requires Many1(ParseVariant, c1) == Some(Parsed(vs, e))
    ensures ParseParam(c) == Some(Parsed(h.(ty := Ty.Enum(vs)), e))
  {
    assert [] + vs == vs;
  }

  // ---------------------------------------------------------------------
  // Blocks

  /** `Header` with the place it stops given as `q1`. */
  lemma HeaderTo(text: string, q: nat, ind: string, kw: string, q1: nat)
    requires IsIndent(ind) && kw != [] && !IsBlank(kw[0])
    requires At(text, q, ind + kw + "\n") && q1 == q + |ind| + |kw| + 1
    ensures q <= q1 <= |text|
    ensures Header(kw, Cursor(text, q)) == Some(Parsed(kw, Cursor(text, q1)))
  {
    HeaderAt(text, q, ind, kw);
  }

  /** An indented line holding `kw` is not the header of a keyword that
      clashes with it. */
  lemma HeaderMiss(text: string, q: nat, ind: string, kw: string, other: string)
    requires IsIndent(ind) && kw != [] && !IsBlank(kw[0])
    requires At(text, q, ind + kw + "\n") && Clash(kw + "\n", other)
    ensures Header(other, Cursor(text, q)).None?
  {
    Assoc(ind, kw, "\n");
    AtSplit(text, q, ind, kw + "\n");
    IndentThen(text, q, ind, kw + "\n");
    AtClash(text, q + |ind|, kw + "\n", other);
  }

  /** A `parameters` or `returns` block reads `ps` and stops at `e`
      exactly when `ps` is not empty and `param` reads `ps` one after
      another from the line after the header and fails at `e`. */
  lemma ParamBlockAt(text: string, q: nat, ind: string, kw: string, q1: nat, ps: seq<Param>, e: Input)
    requires IsIndent(ind) && (kw == "parameters" || kw == "returns")
    requires At(text, q, ind + kw + "\n") && q1 == q + |ind| + |kw| + 1
    ensures ParamBlock(kw, Cursor(text, q)) == Some(Parsed(ps, e))
      <==> ps != [] && Chain(ParseParam, Cursor(text, q1), ps, e)
  {
    HeaderTo(text, q, ind, kw, q1);
    ParamBlockChain(kw, text, q, q1, ps, e);
  }

  /** After its header, a block holds the chain of its parameters. */
  lemma ParamBlockChain(kw: string, text: string, q: nat, q1: nat, ps: seq<Param>, e: Input)
    requires q <= q1 <= |text| && Header(kw, Cursor(text, q)) == Some(Parsed(kw, Cursor(text, q1)))
    ensures ParamBlock(kw, Cursor(text, q)) == Some(Parsed(ps, e)) <==> ps != [] && Chain(ParseParam, Cursor(text, q1), ps, e)
  {
    Many1Chain(ParseParam, Cursor(text, q1), ps, e);
  }

  /** An `enum` block makes `item` read the variants on the lines after
      its header, one or more, one after another. */
  lemma EnumItemAt(text: string, q: nat, ind: string, q1: nat, vs: seq<Variant>, e: Input)
    requires IsIndent(ind)
    requires At(text, q, ind + "enum" + "\n") && q1 == q + |ind| + 5
    ensures ParseItem(Cursor(text, q)) == Some(Parsed(Item.Enum(vs), e))
      <==> vs != [] && Chain(ParseVariant, Cursor(text, q1), vs, e)
  {
    HeaderTo(text, q, ind, "enum", q1);
    assert ("enum" + "\n")[0] != "properties"[0];
    HeaderMiss(text, q, ind, "enum", "properties");
    EnumItemChain(text, q, q1, vs, e);
  }

  /** A `properties` block makes `item` read the parameters on the lines
      after its header, one or more, one after another. */
  lemma PropertiesItemAt(text: string, q: nat, ind: string, q1: nat, ps: seq<Param>, e: Input)
    requires IsIndent(ind)
    requires At(text, q, ind + "properties" + "\n") && q1 == q + |ind| + 11
    ensures ParseItem(Cursor(text, q)) == Some(Parsed(Properties(ps), e))
      <==> ps != [] && Chain(ParseParam, Cursor(text, q1), ps, e)
  {
    HeaderTo(text, q, ind, "properties", q1);
    assert ("properties" + "\n")[0] != "enum"[0];
    HeaderMiss(text, q, ind, "properties", "enum");
    PropertiesItemChain(text, q, q1, ps, e);
  }

  /** After an `enum` header, `item` holds the chain of the variants. */
  lemma EnumItemChain(text: string, q: nat, q1: nat, vs: seq<Variant>, e: Input)
    requires q <= q1 <= |text| && Header("enum", Cursor(text, q)) == Some(Parsed("enum", Cursor(text, q1)))
    requires Header("properties", Cursor(text, q)).None?
    ensures ParseItem(Cursor(text, q)) == Some(Parsed(Item.Enum(vs), e))
      <==> vs != [] && Chain(ParseVariant, Cursor(text, q1), vs, e)
  {
    Many1Chain(ParseVariant, Cursor(text, q1), vs, e);
  }

  /** After a `properties` header, `item` holds the chain of the
      properties. */
  lemma PropertiesItemChain(text: string, q: nat, q1: nat, ps: seq<Param>, e: Input)
    requires q <= q1 <= |text| && Header("properties", Cursor(text, q)) == Some(Parsed("properties", Cursor(text, q1)))
    requires Header("enum", Cursor(text, q)).None?
    ensures ParseItem(Cursor(text, q)) == Some(Parsed(Properties(ps), e))
      <==> ps != [] && Chain(ParseParam, Cursor(text, q1), ps, e)
  {
    Many1Chain(ParseParam, Cursor(text, q1), ps, e);
  }

  // ---------------------------------------------------------------------
  // Types, commands and events

  /** `TypeHeadAt` with the place it stops given as `end`. */
  lemma TypeHeadTo(text: string, q: nat, ind: string, x: bool, d: bool, id: string, s: string, isArray: bool, end: nat)
    requires IsIndent(ind) && IsToken(id) && IsToken(s) && (isArray || Clash(s + "\n", "array of "))
    requires At(text, q, ind + TypeText(x, d, id, s, isArray))
    requires end == q + |ind| + |TypeText(x, d, id, s, isArray)|
    ensures q <= end <= |text|
    ensures TypeHead(Cursor(text, q)) == Some(Parsed((x, d, id, NewTy(s, isArray)), Cursor(text, end)))
  {
    TypeHeadAt(text, q, ind, x, d, id, s, isArray, end);
  }

  /** `ParseType` from what its description, its head line and its
      optional item read. */
  lemma TypeFromParts(text: string, q: nat, desc: Description, q1: nat, x: bool, d: bool, id: string, base: Ty,
                      q2: nat, item: Option<Item>, e: Input)
    requires q <= q1 <= q2 <= |text|
    requires ParseDescription(Cursor(text, q)) == Some(Parsed(desc, Cursor(text, q1)))
    requires TypeHead(Cursor(text, q1)) == Some(Parsed((x, d, id, base), Cursor(text, q2)))
    requires Opt(ParseItem, Cursor(text, q2)) == Some(Parsed(item, e))
    ensures ParseType(Cursor(text, q)) == Some(Parsed(Type(desc, x, d, false, id, base, item), e))
  {
  }

  /** `type_` reads the description before it, the flags, id and base type
      of its head line, and the optional `enum` or `properties` block after
      it (`EnumItemAt`, `PropertiesItemAt`); `optional` is never set. */
  lemma TypeAt(text: string, q: nat, desc: Description, q1: nat, ind: string,
               x: bool, d: bool, id: string, s: string, isArray: bool, q2: nat, item: Option<Item>, e: Input)
    requires q <= q1 <= |text|
    requires ParseDescription(Cursor(text, q)) == Some(Parsed(desc, Cursor(text, q1)))
    requires IsIndent(ind) && IsToken(id) && IsToken(s) && (isArray || Clash(s + "\n", "array of "))
    requires At(text, q1, ind + TypeText(x, d, id, s, isArray))
    requires q2 == q1 + |ind| + |TypeText(x, d, id, s, isArray)| && q2 <= |text|
    requires Opt(ParseItem, Cursor(text, q2)) == Some(Parsed(item, e))
    ensures ParseType(Cursor(text, q)) == Some(Parsed(Type(desc, x, d, false, id, NewTy(s, isArray), item), e))
  {
    TypeHeadTo(text, q1, ind, x, d, id, s, isArray, q2);
    TypeFromParts(text, q, desc, q1, x, d, id, NewTy(s, isArray), q2, item, e);
  }

  /** The three optional parts of a command's body read `red`, `ps` and
      `rs` from `q2`, stopping at `q3`, `q4` and `e`. */
  ghost predicate BodyReads(text: string, q2: nat, red: Option<Redirect>, q3: nat, ps: Option<seq<Param>>, q4: nat,
                            rs: Option<seq<Param>>, e: Input)
  {
    && q2 <= |text| && q3 <= |text| && q4 <= |text|
    && Opt(ParseRedirect, Cursor(text, q2)) == Some(Parsed(red, Cursor(text, q3)))
    && Opt(c => ParamBlock("parameters", c), Cursor(text, q3)) == Some(Parsed(ps, Cursor(text, q4)))
    && Opt(c => ParamBlock("returns", c), Cursor(text, q4)) == Some(Parsed(rs, e))
  }

  /** `ParseCommand` from what its description, its head line and the
      three optional parts of its body read. */
  lemma CommandFromParts(text: string, q: nat, desc: Description, q1: nat, x: bool, d: bool, name: string, q2: nat,
                         red: Option<Redirect>, q3: nat, ps: Option<seq<Param>>, q4: nat, rs: Option<seq<Param>>, e: Input)
    requires q <= q1 <= q2 <= |text|
    requires ParseDescription(Cursor(text, q)) == Some(Parsed(desc, Cursor(text, q1)))
    requires DeclHead("command", Cursor(text, q1)) == Some(Parsed((x, d, name), Cursor(text, q2)))
    requires BodyReads(text, q2, red, q3, ps, q4, rs, e)
    ensures ParseCommand(Cursor(text, q)) == Some(Parsed(Command(desc, x, d, name, red, OrEmpty(ps), OrEmpty(rs)), e))
  {
  }

  /** `command` reads the description before it, the flags and name of
      its head line, then an optional redirect (`RedirectAt`), an optional
      `parameters` block and an optional `returns` block (`ParamBlockAt`),
      in that order; a missing block leaves no parameters. */
  lemma CommandAt(text: string, q: nat, desc: Description, q1: nat, ind: string, x: bool, d: bool, name: string,
                  q2: nat, red: Option<Redirect>, q3: nat, ps: Option<seq<Param>>, q4: nat, rs: Option<seq<Param>>, e: Input)
    requires q <= q1 <= |text|
    requires ParseDescription(Cursor(text, q)) == Some(Parsed(desc, Cursor(text, q1)))
    requires IsIndent(ind) && '\n' !in name
    requires At(text, q1, ind + HeadText(x, d, "command", name)) && q2 == q1 + |ind| + |HeadText(x, d, "command", name)|
    requires BodyReads(text, q2, red, q3, ps, q4, rs, e)
    ensures ParseCommand(Cursor(text, q)) == Some(Parsed(Command(desc, x, d, name, red, OrEmpty(ps), OrEmpty(rs)), e))
  {
    KeywordClashes("command");
    DeclHeadAt(text, q1, ind, x, d, "command", name, q2);
    CommandFromParts(text, q, desc, q1, x, d, name, q2, red, q3, ps, q4, rs, e);
  }

  /** `ParseEvent` from what its description, its head line and its
      optional `parameters` block read. */
  lemma EventFromParts(text: string, q: nat, desc: Description, q1: nat, x: bool, d: bool, name: string, q2: nat,
                       ps: Option<seq<Param>>, e: Input)
    requires q <= q1 <= q2 <= |text|
    requires ParseDescription(Cursor(text, q)) == Some(Parsed(desc, Cursor(text, q1)))
    requires DeclHead("event", Cursor(text, q1)) == Some(Parsed((x, d, name), Cursor(text, q2)))
    requires Opt(c => ParamBlock("parameters", c), Cursor(text, q2)) == Some(Parsed(ps, e))
    ensures ParseEvent(Cursor(text, q)) == Some(Parsed(Event(desc, x, d, name, OrEmpty(ps)), e))
  {
  }

  /** `event` reads the description before it, the flags and name of its
      head line, and an optional `parameters` block (`ParamBlockAt`). */
  lemma EventAt(text: string, q: nat, desc: Description, q1: nat, ind: string, x: bool, d: bool, name: string,
                q2: nat, ps: Option<seq<Param>>, e: Input)
    requires q <= q1 <= |text|
    requires ParseDescription(Cursor(text, q)) == Some(Parsed(desc, Cursor(text, q1)))
    requires IsIndent(ind) && '\n' !in name
    requires At(text, q1, ind + HeadText(x, d, "event", name)) && q2 == q1 + |ind| + |HeadText(x, d, "event", name)|
    requires q2 <= |text|
    requires Opt(c => ParamBlock("parameters", c), Cursor(text, q2)) == Some(Parsed(ps, e))
    ensures ParseEvent(Cursor(text, q)) == Some(Parsed(Event(desc, x, d, name, OrEmpty(ps)), e))
  {
    KeywordClashes("event");
    DeclHeadAt(text, q1, ind, x, d, "event", name, q2);
    EventFromParts(text, q, desc, q1, x, d, name, q2, ps, e);
  }

  // ---------------------------------------------------------------------
  // Domains and the protocol

  /** The four lists of a domain: `depends_on` reads `deps` one after
      another from `c2`, then each declaration rule reads its list from
      where the previous list stopped, the last stopping at `e`. */
  ghost predicate DomainLists(c2: Input, deps: seq<string>, types: seq<Type>, cmds: seq<Command>, evts: seq<Event>,
                              e: Input)
  {
    exists c3: Input, c4: Input, c5: Input ::
      && Chain(ParseDependsOn, c2, deps, c3)
      && Chain(BlankThenType, c3, types, c4)
      && Chain(BlankThenCommand, c4, cmds, c5)
      && Chain(BlankThenEvent, c5, evts, e)
  }

  /** After its description and head line, a domain holds the chains of
      its dependencies, types, commands and events, in that order. */
  lemma DomainFromParts(c: Input, dd: Parsed<Description>, h: Parsed<(bool, bool, string)>,
                        deps: seq<string>, types: seq<Type>, cmds: seq<Command>, evts: seq<Event>, e: Input)
    requires ParseDescription(c) == Some(dd) && DomainHead(dd.rest) == Some(h)
    ensures ParseDomain(c) == Some(Parsed(Domain(dd.value, h.value.0, h.value.1, h.value.2, deps, types, cmds, evts), e))
      <==> DomainLists(h.rest, deps, types, cmds, evts, e)
  {
    var dom := Domain(dd.value, h.value.0, h.value.1, h.value.2, deps, types, cmds, evts);
    var c2 := h.rest;
    if ParseDomain(c) == Some(Parsed(dom, e)) {
      var m1 := Many0(ParseDependsOn, c2).value;
      var m2 := Many0(BlankThenType, m1.rest).value;
      var m3 := Many0(BlankThenCommand, m2.rest).value;
      var m4 := Many0(BlankThenEvent, m3.rest).value;
      Many0Chain(ParseDependsOn, c2, m1.value, m1.rest);
      Many0Chain(BlankThenType, m1.rest, m2.value, m2.rest);
      Many0Chain(BlankThenCommand, m2.rest, m3.value, m3.rest);
      Many0Chain(BlankThenEvent, m3.rest, m4.value, m4.rest);
      assert DomainLists(c2, deps, types, cmds, evts, e);
    }
    if DomainLists(c2, deps, types, cmds, evts, e) {
      var c3: Input, c4: Input, c5: Input :|
        && Chain(ParseDependsOn, c2, deps, c3)
        && Chain(BlankThenType, c3, types, c4)
        && Chain(BlankThenCommand, c4, cmds, c5)
        && Chain(BlankThenEvent, c5, evts, e);
      Many0Chain(ParseDependsOn, c2, deps, c3);
      Many0Chain(BlankThenType, c3, types, c4);
      Many0Chain(BlankThenCommand, c4, cmds, c5);
      Many0Chain(BlankThenEvent, c5, evts, e);
    }
  }

  /** `domain` reads the description before it and the flags and name of
      its head line, which stands at the start of a line; it then yields
      `deps`, `types`, `cmds` and `evts` and stops at `e` exactly when
      those are the chains of `depends_on` and of the declaration rules,
      each list starting where the previous one stopped. */
  lemma DomainAt(text: string, q: nat, desc: Description, q1: nat, x: bool, d: bool, name: string, q2: nat,
                 deps: seq<string>, types: seq<Type>, cmds: seq<Command>, evts: seq<Event>, e: Input)
    requires q <= q1 <= |text|
    requires ParseDescription(Cursor(text, q)) == Some(Parsed(desc, Cursor(text, q1)))
    requires '\n' !in name
    requires At(text, q1, HeadText(x, d, "domain", name)) && q2 == q1 + |HeadText(x, d, "domain", name)|
    requires q2 <= |text|
    ensures ParseDomain(Cursor(text, q)) == Some(Parsed(Domain(desc, x, d, name, deps, types, cmds, evts), e))
      <==> DomainLists(Cursor(text, q2), deps, types, cmds, evts, e)
  {
    DomainHeadAt(text, q1, x, d, name, q2);
    DomainFromParts(Cursor(text, q), Parsed(desc, Cursor(text, q1)), Parsed((x, d, name), Cursor(text, q2)),
      deps, types, cmds, evts, e);
  }

  /** After its description, its blank lines and its version block, the
      protocol holds the chain of its domains. */
  lemma ProtocolFromParts(text: string, q: nat, desc: Description, q1: nat, q2: nat, version: (nat, nat), q3: nat,
                          ds: seq<Domain>, e: Input)
    requires q <= q1 <= |text| && q2 <= q3 <= |text|
    requires ParseDescription(Cursor(text, q)) == Some(Parsed(desc, Cursor(text, q1)))
    requires EmptyLines(Cursor(text, q1)).value.rest == Cursor(text, q2)
    requires ParseVersion(Cursor(text, q2)) == Some(Parsed(version, Cursor(text, q3)))
    ensures ParseProtocol(Cursor(text, q)) == Some(Parsed(Protocol(desc, version, ds), e))
      <==> ds != [] && Chain(BlankThenDomain, Cursor(text, q3), ds, e)
  {
    Many1Chain(BlankThenDomain, Cursor(text, q3), ds, e);
  }

  /** `protocol` reads the description before it, skips the blank lines
      after it, reads the two numbers of the version block, and then
      yields the domains `ds` and stops at `e` exactly when `ds` is not
      empty and `domain`, after any blank lines, reads `ds` one after
      another from the end of the block and fails at `e`. */
  lemma ProtocolAt(text: string, q: nat, desc: Description, q1: nat, q2: nat,
                   ind1: string, major: nat, ind2: string, minor: nat, q3: nat, ds: seq<Domain>, e: Input)
    requires q <= q1 <= |text| && q2 <= |text|
    requires ParseDescription(Cursor(text, q)) == Some(Parsed(desc, Cursor(text, q1)))
    requires EmptyLines(Cursor(text, q1)).value.rest == Cursor(text, q2)
    requires IsIndent(ind1) && IsIndent(ind2) && major <= UsizeMax && minor <= UsizeMax
    requires At(text, q2, VersionBlock(ind1, DecimalString(major), ind2, DecimalString(minor)))
    requires q3 == q2 + |VersionBlock(ind1, DecimalString(major), ind2, DecimalString(minor))|
    ensures ParseProtocol(Cursor(text, q)) == Some(Parsed(Protocol(desc, (major, minor), ds), e))
      <==> ds != [] && Chain(BlankThenDomain, Cursor(text, q3), ds, e)
  {
    VersionAt(text, q2, ind1, major, ind2, minor, q3);
    ProtocolFromParts(text, q, desc, q1, q2, (major, minor), q3, ds, e);
  }

  /** `empty_lines` at `q` stops at `q1` when the text holds only line
      feeds from `q` to `q1` and no line feed at `q1`. A declaration after
      blank lines is then the declaration read at `q1`. */
  lemma BlankLinesAt(text: string, q: nat, q1: nat)
    requires q <= q1 <= |text|
    requires forall k | q <= k < q1 :: text[k] == '\n'
    requires q1 < |text| ==> text[q1] != '\n'
    ensures EmptyLines(Cursor(text, q)).value.rest == Cursor(text, q1)
    ensures BlankThenType(Cursor(text, q)) == ParseType(Cursor(text, q1))
    ensures BlankThenCommand(Cursor(text, q)) == ParseCommand(Cursor(text, q1))
    ensures BlankThenEvent(Cursor(text, q)) == ParseEvent(Cursor(text, q1))
    ensures BlankThenDomain(Cursor(text, q)) == ParseDomain(Cursor(text, q1))
  {
  }

  /** At the end of the text no dependency, declaration or domain can be
      read, so each list of a domain or a protocol stops there. */
  lemma NothingAtEnd(text: string)
    ensures ParseDependsOn(Cursor(text, |text|)).None?
    ensures BlankThenType(Cursor(text, |text|)).None?
    ensures BlankThenCommand(Cursor(text, |text|)).None?
    ensures BlankThenEvent(Cursor(text, |text|)).None?
    ensures BlankThenDomain(Cursor(text, |text|)).None?
    ensures DomainLists(Cursor(text, |text|), [], [], [], [], Cursor(text, |text|))
  {
    var end := Cursor(text, |text|);
    BlankLinesAt(text, |text|, |text|);
    assert Chain(ParseDependsOn, end, [], end) && Chain(BlankThenType, end, [], end);
    assert Chain(BlankThenCommand, end, [], end) && Chain(BlankThenEvent, end, [], end);
  }
}
