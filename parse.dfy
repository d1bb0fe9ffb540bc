/** The PDL grammar (src/parse.rs): one function per nom rule, each mapping
    an input to the value it recognised and the text it left, or to `None`. */
module Parse {
  import opened Wrappers
  import opened Combinators
  import opened Lexer
  import opened Pdl
  import opened Decimal

  /** `usize::MAX` on a 64-bit target. */
  const UsizeMax: nat := 0xFFFF_FFFF_FFFF_FFFF

  /** `usize::from_str` on a run of digits: fails on the empty run and on a
      value that does not fit in a `usize`. */
  function ParseUsize(ds: string): (r: Option<nat>)
    requires AllDigits(ds)
    ensures r.Some? <==> ds != [] && DigitsValue(ds) <= UsizeMax
    ensures r.Some? ==> r.value == DigitsValue(ds)
  {
    if ds == [] || DigitsValue(ds) > UsizeMax then None else Some(DigitsValue(ds))
  }

  /** `comment`: optional indent, `#`, the rest of the line trimmed, and the
      line feed. */
  function ParseComment(c: Input): (r: Option<Parsed<string>>)
    ensures r.Some? ==> Consumes(r.value.rest, c)
  {
    var i := Opt(Indent, c).value;
    var h :- Char('#', i.rest);
    var t :- TakeUntilNewline(h.rest);
    var e := Eol(t.rest).value;   // take_until stopped at a line feed
    Some(Parsed(Trim(t.value), e.rest))
  }

  /** A comment needs a line feed after it, stays on one line and has no
      whitespace at either end. */
  lemma CommentShape(c: Input)
    ensures (forall k | c.pos <= k < |c.text| :: c.text[k] != '\n') ==> ParseComment(c).None?
    ensures ParseComment(c).Some? ==> '\n' !in ParseComment(c).value.value
    ensures ParseComment(c).Some? && ParseComment(c).value.value != [] ==>
      NotWhitespace(ParseComment(c).value.value[0]) && NotWhitespace(ParseComment(c).value.value[|ParseComment(c).value.value| - 1])
  {
    if ParseComment(c).Some? {
      var i := Opt(Indent, c).value;
      var h := Char('#', i.rest).value;
      var t := TakeUntilNewline(h.rest).value;
      TrimShape(t.value);
    }
  }

  /** `description`: `many0(comment)`; never fails, and stops at the first
      line that is not a comment. */
  function ParseDescription(c: Input): (r: Option<Parsed<Description>>)
    ensures r.Some? && Advances(r.value.rest, c)
    ensures ParseComment(r.value.rest).None?
  {
    Many0Total(ParseComment, c);
    Many0(ParseComment, c)
  }

  /** One `<key> <digits>` line of the version block. */
  function VersionLine(key: string, c: Input): (r: Option<Parsed<nat>>)
    ensures r.Some? ==> Consumes(r.value.rest, c) && r.value.value <= UsizeMax
  {
    var i :- Indent(c);
    var k :- Tag(key, i.rest);
    var sp :- Char(' ', k.rest);
    var ds := TakeWhile(IsDigit, sp.rest).value;
    var n :- ParseUsize(ds.value);
    var e :- Eol(ds.rest);
    Some(Parsed(n, e.rest))
  }

  /** `version`: the literal `version` line, then the indented `major` and
      `minor` lines. */
  function ParseVersion(c: Input): (r: Option<Parsed<(nat, nat)>>)
    ensures r.Some? ==> Consumes(r.value.rest, c)
    ensures r.Some? ==> "version\n" <= Remaining(c)
    ensures r.Some? ==> r.value.value.0 <= UsizeMax && r.value.value.1 <= UsizeMax
  {
    var v :- Tag("version", c);
    var e :- Eol(v.rest);
    assert Remaining(c)[..8] == "version\n";
    var major :- VersionLine("major", e.rest);
    var minor :- VersionLine("minor", major.rest);
    Some(Parsed((major.value, minor.value), minor.rest))
  }

  /** An indented `<kw> <name>` line, the name running to the next
      whitespace: the line of `depends_on` and of `redirect`. */
  function NameLine(kw: string, c: Input): (r: Option<Parsed<string>>)
    ensures r.Some? ==> Consumes(r.value.rest, c)
    ensures r.Some? ==> IsToken(r.value.value)
  {
    var i :- Indent(c);
    var k :- Tag(kw, i.rest);
    var sp :- Char(' ', k.rest);
    var name := TakeWhile(NotWhitespace, sp.rest).value;
    var e :- Eol(name.rest);
    Some(Parsed(name.value, e.rest))
  }

  /** `depends_on`: an indented `depends on <name>` line. */
  function ParseDependsOn(c: Input): (r: Option<Parsed<string>>)
    ensures r.Some? ==> Consumes(r.value.rest, c)
    ensures r.Some? ==> IsToken(r.value.value)
  {
    NameLine("depends on", c)
  }

  /** `ty`: an optional `array of ` prefix, then a token, resolved by `NewTy`. */
  function ParseTy(c: Input): (r: Option<Parsed<Ty>>)
    ensures r.Some? && Advances(r.value.rest, c)
    ensures r.value.rest.pos < |c.text| ==> IsWhitespace(c.text[r.value.rest.pos])
  {
    var a := Optional("array of", c).value;
    var t := TakeWhile(NotWhitespace, a.rest).value;
    Some(Parsed(NewTy(t.value, a.value), t.rest))
  }

  /** `ty` reads the longest token after the optional `array of ` prefix
      and yields the type `Ty::new` resolves it to, with the array flag set
      exactly when the prefix is there. */
  lemma TyShape(c: Input)
    ensures var a := c.pos + if "array of " <= Remaining(c) then 9 else 0;
      && a <= ParseTy(c).value.rest.pos
      && IsToken(c.text[a..ParseTy(c).value.rest.pos])
      && ParseTy(c).value.value == NewTy(c.text[a..ParseTy(c).value.rest.pos], "array of " <= Remaining(c))
  {
  }

  /** An indented line holding only the keyword `kw`. */
  function Header(kw: string, c: Input): (r: Option<Parsed<string>>)
    ensures r.Some? ==> Consumes(r.value.rest, c)
  {
    var i :- Indent(c);
    var k :- Tag(kw, i.rest);
    var e :- Eol(k.rest);
    Some(Parsed(k.value, e.rest))
  }

  /** The line of `variant`: an indented non-empty token alone on its line. */
  function VariantLine(c: Input): (r: Option<Parsed<string>>)
    ensures r.Some? ==> Consumes(r.value.rest, c)
    ensures r.Some? ==> r.value.value != [] && IsToken(r.value.value)
  {
    var i :- Indent(c);
    var n := TakeWhile(NotWhitespace, i.rest).value;
    if n.value == [] then None
    else
      var e :- Eol(n.rest);
      Some(Parsed(n.value, e.rest))
  }

  /** `variant`: its description, then its line. */
  function ParseVariant(c: Input): (r: Option<Parsed<Variant>>)
    ensures r.Some? ==> Consumes(r.value.rest, c)
    ensures r.Some? ==> r.value.value.name != [] && IsToken(r.value.value.name)
  {
    var d := ParseDescription(c).value;
    var line :- VariantLine(d.rest);
    Some(Parsed(Variant(d.value, line.value), line.rest))
  }

  /** The line of `param`: indent, modifiers, type, a space and a non-empty
      name alone on the rest of the line. */
  function ParamLine(c: Input): (r: Option<Parsed<(bool, bool, bool, Ty, string)>>)
    ensures r.Some? ==> Consumes(r.value.rest, c)
    ensures r.Some? ==> r.value.value.4 != [] && IsToken(r.value.value.4)
    ensures r.Some? && r.value.value.3.Enum? ==> r.value.value.3.variants == []
  {
    var i :- Indent(c);
    var m := ParamModifiers(i.rest).value;
    var t := ParseTy(m.rest).value;
    var sp :- Char(' ', t.rest);
    var n := TakeWhile(NotWhitespace, sp.rest).value;
    if n.value == [] then None
    else
      var e :- Eol(n.rest);
      Some(Parsed((m.value.0, m.value.1, m.value.2, t.value, n.value), e.rest))
  }

  /** The declaration of a parameter or property, without the variant lines
      of an inline enum: its description, then its line. */
  function ParseParamHead(c: Input): (r: Option<Parsed<Param>>)
    ensures r.Some? ==> Consumes(r.value.rest, c)
    ensures r.Some? ==> r.value.value.name != [] && IsToken(r.value.value.name)
    ensures r.Some? && r.value.value.ty.Enum? ==> r.value.value.ty.variants == []
  {
    var d := ParseDescription(c).value;
    var line :- ParamLine(d.rest);
    var (experimental, deprecated, optional, ty, name) := line.value;
    Some(Parsed(Param(d.value, experimental, deprecated, optional, ty, name), line.rest))
  }

  /** The text of the `experimental` and `deprecated` prefixes that are set. */
  function FlagText(experimental: bool, deprecated: bool): string {
    Modifier(experimental, "experimental") + Modifier(deprecated, "deprecated")
  }

  /** The `experimental`, `deprecated` and `optional` flags of a parameter,
      each recognised only in that order: the first two as `Flags` reads
      them, then `optional` exactly when it and a space stand where `Flags`
      stopped. */
  function ParamModifiers(c: Input): (r: Option<Parsed<(bool, bool, bool)>>)
    ensures r.Some? && Advances(r.value.rest, c)
    ensures (r.value.value.0, r.value.value.1) == Flags(c).value.value
    ensures r.value.value.2 <==> "optional " <= Remaining(Flags(c).value.rest)
    ensures r.value.rest.pos == Flags(c).value.rest.pos + (if r.value.value.2 then 9 else 0)
  {
    var f := Flags(c).value;
    var o := Optional("optional", f.rest).value;
    Some(Parsed((f.value.0, f.value.1, o.value), o.rest))
  }

  /** What is left at a cursor further along the same text. */
  lemma RemainingFrom(c: Input, d: Input)
    requires Advances(d, c)
    ensures Remaining(d) == Remaining(c)[d.pos - c.pos..]
  {
  }

  /** The `experimental` then `deprecated` prefixes shared by every
      declaration head: each is set exactly when its keyword and a space
      stand where the previous probe stopped. */
  function Flags(c: Input): (r: Option<Parsed<(bool, bool)>>)
    ensures r.Some? && Advances(r.value.rest, c)
    ensures r.value.value.0 <==> "experimental " <= Remaining(c)
    ensures r.value.value.1 <==> "deprecated " <= Remaining(c)[if r.value.value.0 then 13 else 0..]
    ensures r.value.rest.pos == c.pos + |FlagText(r.value.value.0, r.value.value.1)|
  {
    var x := Optional("experimental", c).value;
    var p := Optional("deprecated", x.rest).value;
    assert x.rest.pos - c.pos == if x.value then 13 else 0;
    RemainingFrom(c, x.rest);
    assert |FlagText(x.value, p.value)| == (if x.value then 13 else 0) + (if p.value then 11 else 0);
    Some(Parsed((x.value, p.value), p.rest))
  }

  /** `param`: a parameter declaration; when its type is a bare `enum`, one
      or more variant lines must follow and become its variants. */
  function ParseParam(c: Input): (r: Option<Parsed<Param>>)
    ensures r.Some? ==> Consumes(r.value.rest, c)
    ensures r.Some? ==> r.value.value.name != [] && IsToken(r.value.value.name)
    ensures r.Some? && r.value.value.ty.Enum? ==> |r.value.value.ty.variants| >= 1
  {
    var h :- ParseParamHead(c);
    if h.value.ty.Enum? then
      var vs :- Many1(ParseVariant, h.rest);
      Some(Parsed(h.value.(ty := Ty.Enum(h.value.ty.variants + vs.value)), vs.rest))
    else
      Some(h)
  }

  /** The `enum` alternative of `item`. */
  function EnumItem(c: Input): (r: Option<Parsed<Item>>)
    ensures r.Some? ==> Consumes(r.value.rest, c)
    ensures r.Some? ==> r.value.value.Enum? && |r.value.value.variants| >= 1
  {
    var h :- Header("enum", c);
    var vs :- Many1(ParseVariant, h.rest);
    Some(Parsed(Item.Enum(vs.value), vs.rest))
  }

  /** The `properties` alternative of `item`. */
  function PropertiesItem(c: Input): (r: Option<Parsed<Item>>)
    ensures r.Some? ==> Consumes(r.value.rest, c)
    ensures r.Some? ==> r.value.value.Properties? && |r.value.value.props| >= 1
  {
    var h :- Header("properties", c);
    var ps :- Many1(ParseParam, h.rest);
    Some(Parsed(Properties(ps.value), ps.rest))
  }

  /** `item`: a type's `enum` or `properties` block. */
  function ParseItem(c: Input): (r: Option<Parsed<Item>>)
    ensures r.Some? ==> Consumes(r.value.rest, c)
    ensures r.Some? ==>
      || (r.value.value.Enum? && |r.value.value.variants| >= 1)
      || (r.value.value.Properties? && |r.value.value.props| >= 1)
  {
    Alt(EnumItem, PropertiesItem, c)
  }

  /** The head line of `type_`: `[experimental ][deprecated ]type <id> extends <ty>`. */
  function TypeHead(c: Input): (r: Option<Parsed<(bool, bool, string, Ty)>>)
    ensures r.Some? ==> Consumes(r.value.rest, c) && IsToken(r.value.value.2)
  {
    var i :- Indent(c);
    var f := Flags(i.rest).value;
    var k :- Tag("type", f.rest);
    var sp :- Char(' ', k.rest);
    var id := TakeWhile(NotWhitespace, sp.rest).value;
    var sp2 :- Char(' ', id.rest);
    var ext :- Tag("extends", sp2.rest);
    var sp3 :- Char(' ', ext.rest);
    var t := ParseTy(sp3.rest).value;
    var e :- Eol(t.rest);
    Some(Parsed((f.value.0, f.value.1, id.value, t.value), e.rest))
  }

  /** `type_`: description, the head line, and an optional item. The parser
      never sets `optional` on a type. */
  function ParseType(c: Input): (r: Option<Parsed<Type>>)
    ensures r.Some? ==> Consumes(r.value.rest, c)
    ensures r.Some? ==> !r.value.value.optional && IsToken(r.value.value.id)
  {
    var d := ParseDescription(c).value;
    var h :- TypeHead(d.rest);
    var item := Opt(ParseItem, h.rest).value;
    var (experimental, deprecated, id, base) := h.value;
    Some(Parsed(Type(d.value, experimental, deprecated, false, id, base, item.value), item.rest))
  }

  /** `redirect`: description, then an indented `redirect <domain>` line. */
  function ParseRedirect(c: Input): (r: Option<Parsed<Redirect>>)
    ensures r.Some? ==> Consumes(r.value.rest, c)
    ensures r.Some? ==> IsToken(r.value.value.to)
  {
    var d := ParseDescription(c).value;
    var line :- NameLine("redirect", d.rest);
    Some(Parsed(Redirect(d.value, line.value), line.rest))
  }

  /** A `parameters` or `returns` block: the header line, then one or more
      parameters. */
  function ParamBlock(kw: string, c: Input): (r: Option<Parsed<seq<Param>>>)
    ensures r.Some? ==> Consumes(r.value.rest, c)
    ensures r.Some? ==> |r.value.value| >= 1
  {
    var h :- Header(kw, c);
    var ps :- Many1(ParseParam, h.rest);
    Some(Parsed(ps.value, ps.rest))
  }

  /** `unwrap_or_default` on an optional parameter list. */
  function OrEmpty(ps: Option<seq<Param>>): seq<Param> {
    if ps.Some? then ps.value else []
  }

  /** The head line of `command` or `event`:
      `[experimental ][deprecated ]<kw> <name>`, the name running to the end
      of the line. */
  function DeclHead(kw: string, c: Input): (r: Option<Parsed<(bool, bool, string)>>)
    ensures r.Some? ==> Consumes(r.value.rest, c) && '\n' !in r.value.value.2
  {
    var i :- Indent(c);
    var f := Flags(i.rest).value;
    var k :- Tag(kw, f.rest);
    var sp :- Char(' ', k.rest);
    var n :- TakeUntilNewline(sp.rest);
    var e := Eol(n.rest).value;   // take_until stopped at a line feed
    Some(Parsed((f.value.0, f.value.1, n.value), e.rest))
  }

  /** The body of `command`: an optional redirect, then the optional
      `parameters` and `returns` blocks, in that order; never fails. */
  function CommandBody(c: Input): (r: Option<Parsed<(Option<Redirect>, seq<Param>, seq<Param>)>>)
    ensures r.Some? && Advances(r.value.rest, c)
  {
    var red := Opt(ParseRedirect, c).value;
    var blocks := ParamBlocks(red.rest).value;
    Some(Parsed((red.value, blocks.value.0, blocks.value.1), blocks.rest))
  }

  /** `opt(parameters)` then `opt(returns)`, each defaulting to no parameters. */
  function ParamBlocks(c: Input): (r: Option<Parsed<(seq<Param>, seq<Param>)>>)
    ensures r.Some? && Advances(r.value.rest, c)
  {
    var ps := Opt(x => ParamBlock("parameters", x), c).value;
    var rs := Opt(x => ParamBlock("returns", x), ps.rest).value;
    Some(Parsed((OrEmpty(ps.value), OrEmpty(rs.value)), rs.rest))
  }

  /** `command`: description, the head line, then its body. */
  function ParseCommand(c: Input): (r: Option<Parsed<Command>>)
    ensures r.Some? ==> Consumes(r.value.rest, c)
    ensures r.Some? ==> '\n' !in r.value.value.name
  {
    var d := ParseDescription(c).value;
    var h :- DeclHead("command", d.rest);
    var b := CommandBody(h.rest).value;
    var (experimental, deprecated, name) := h.value;
    var (redirect, parameters, results) := b.value;
    Some(Parsed(Command(d.value, experimental, deprecated, name, redirect, parameters, results), b.rest))
  }

  /** `event`: description, the head line, then an optional `parameters` block. */
  function ParseEvent(c: Input): (r: Option<Parsed<Event>>)
    ensures r.Some? ==> Consumes(r.value.rest, c)
    ensures r.Some? ==> '\n' !in r.value.value.name
  {
    var d := ParseDescription(c).value;
    var h :- DeclHead("event", d.rest);
    var ps := Opt(x => ParamBlock("parameters", x), h.rest).value;
    var (experimental, deprecated, name) := h.value;
    Some(Parsed(Event(d.value, experimental, deprecated, name, OrEmpty(ps.value)), ps.rest))
  }

  /** `preceded(empty_lines, type_)` and its siblings: a declaration after
      any number of blank lines. */
  function BlankThenType(c: Input): (r: Option<Parsed<Type>>)
    ensures r.Some? ==> Consumes(r.value.rest, c)
  {
    Preceded(EmptyLines, ParseType, c)
  }

  function BlankThenCommand(c: Input): (r: Option<Parsed<Command>>)
    ensures r.Some? ==> Consumes(r.value.rest, c)
  {
    Preceded(EmptyLines, ParseCommand, c)
  }

  function BlankThenEvent(c: Input): (r: Option<Parsed<Event>>)
    ensures r.Some? ==> Consumes(r.value.rest, c)
  {
    Preceded(EmptyLines, ParseEvent, c)
  }

  function BlankThenDomain(c: Input): (r: Option<Parsed<Domain>>)
    ensures r.Some? ==> Consumes(r.value.rest, c)
  {
    Preceded(EmptyLines, ParseDomain, c)
  }

  /** The head line of `domain`: `[experimental ][deprecated ]domain <name>`,
      not indented, the name running to the end of the line. */
  function DomainHead(c: Input): (r: Option<Parsed<(bool, bool, string)>>)
    ensures r.Some? ==> Consumes(r.value.rest, c) && '\n' !in r.value.value.2
  {
    var f := Flags(c).value;
    var k :- Tag("domain", f.rest);
    var sp :- Char(' ', k.rest);
    var n :- TakeUntilNewline(sp.rest);
    var e := Eol(n.rest).value;   // take_until stopped at a line feed
    Some(Parsed((f.value.0, f.value.1, n.value), e.rest))
  }

  /** `domain`: description, the head line, then greedy lists of dependencies,
      types, commands and events, in that order. */
  function ParseDomain(c: Input): (r: Option<Parsed<Domain>>)
    ensures r.Some? ==> Consumes(r.value.rest, c)
    ensures r.Some? ==> '\n' !in r.value.value.name
    ensures r.Some? ==> BlankThenEvent(r.value.rest).None?
  {
    var d := ParseDescription(c).value;
    var h :- DomainHead(d.rest);
    var deps :- Many0(ParseDependsOn, h.rest);
    var types :- Many0(BlankThenType, deps.rest);
    var cmds :- Many0(BlankThenCommand, types.rest);
    var evts :- Many0(BlankThenEvent, cmds.rest);
    var (experimental, deprecated, name) := h.value;
    Some(Parsed(Domain(d.value, experimental, deprecated, name, deps.value, types.value, cmds.value, evts.value), evts.rest))
  }

  /** `protocol`: description, blank lines, the version block, then one or
      more domains. Text after the last domain is returned, not rejected. */
  function ParseProtocol(c: Input): (r: Option<Parsed<Protocol>>)
    ensures r.Some? ==> Consumes(r.value.rest, c)
    ensures r.Some? ==> |r.value.value.domains| >= 1
    ensures r.Some? ==> BlankThenDomain(r.value.rest).None?
  {
    var d := ParseDescription(c).value;
    var b := EmptyLines(d.rest).value;
    var v :- ParseVersion(b.rest);
    var ds :- Many1(BlankThenDomain, v.rest);
    Some(Parsed(Protocol(d.value, v.value, ds.value), ds.rest))
  }

  /** `parse`: the library's entry point. It yields the document and the
      text after the last domain, which is a suffix of the input. */
  function Parse(s: string): (r: Option<(Protocol, string)>)
    ensures r.Some? ==> IsSuffix(r.value.1, s) && |r.value.0.domains| >= 1
  {
    var start: Input := Cursor(s, 0);
    var p :- ParseProtocol(start);
    AdvancesIsSuffix(p.rest, start);
    Some((p.value, Remaining(p.rest)))
  }
}
