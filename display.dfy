/** The canonical-text renderer (src/display.rs).

    Output is modelled at the granularity of `fmt::Write::write_str` calls.
    A `write!` or `writeln!` emits one fragment per non-empty literal piece
    and one per `&str` or number argument, empty arguments included; a nested
    `Display` value emits its own fragments. Each `Display` impl is described
    by a `Doc`: the fragments it writes, in order, with `Nest` marking the
    parts it writes through a fresh `Ident` wrapper. `Render` says which
    fragments then reach the base sink. */
module Display {
  import opened Wrappers
  import opened Pdl
  import opened Decimal
  import opened Lexer

  const INDENT: string := "  "

  /** A chain of `Ident` wrappers around the base formatter. Formatters made
      by nested `write!` calls pass fragments on unchanged, so only the
      `Ident` layers are recorded. */
  datatype Writer = Base | Ident(inner: Writer)

  /** What a `Display` impl writes to the writer it is handed. */
  datatype Doc =
    | Empty
    | Text(frags: seq<string>)   // one `write_str` per fragment
    | Cat(first: Doc, second: Doc)
    | Nest(body: Doc)            // written through `Ident(f)`
    | Show(value: Shown)         // a nested `{}` of a declaration

  /** The declarations whose `Display` impls write other declarations. */
  datatype Shown = ShownType(t: Type) | ShownCommand(c: Command) | ShownEvent(e: Event) | ShownDomain(d: Domain)

  /** The text of a fragment sequence. */
  function Concat(fs: seq<string>): string {
    if fs == [] then [] else Concat(fs[..|fs| - 1]) + fs[|fs| - 1]
  }

  /** What one `Ident` layer passes on: `INDENT` before every fragment. */
  function IdentMap(fs: seq<string>): seq<string> {
    if fs == [] then [] else IdentMap(fs[..|fs| - 1]) + [INDENT, fs[|fs| - 1]]
  }

  /** The fragments that reach the base sink when `fs` is written to `w`. */
  function Through(w: Writer, fs: seq<string>): seq<string>
    decreases w
  {
    match w
    case Base => fs
    case Ident(inner) => Through(inner, IdentMap(fs))
  }

  /** The fragments that reach the base sink when `d` is written to `w`. */
  function Render(w: Writer, d: Doc): seq<string>
    decreases Height(d), d
  {
    match d
    case Empty => []
    case Text(fs) => Through(w, fs)
    case Cat(a, b) => Render(w, a) + Render(w, b)
    case Nest(body) => Render(Ident(w), body)
    case Show(v) => ExpandLower(v); Render(w, Expand(v))
  }

  /** How deeply declarations are nested in a document: a domain shows
      types, commands and events, which show none. */
  function Height(d: Doc): nat {
    match d
    case Empty => 0
    case Text(_) => 0
    case Cat(a, b) => if Height(a) < Height(b) then Height(b) else Height(a)
    case Nest(body) => Height(body)
    case Show(v) => if v.ShownDomain? then 2 else 1
  }

  /** `f(x)` for every `x` of `xs`, in order: the body of a `for` loop. */
  function Lines<T>(xs: seq<T>, f: T -> Doc): Doc {
    if xs == [] then Empty else Cat(Lines(xs[..|xs| - 1], f), f(xs[|xs| - 1]))
  }

  lemma {:induction false} IdentMapAppend(a: seq<string>, b: seq<string>)
    ensures IdentMap(a + b) == IdentMap(a) + IdentMap(b)
    decreases |b|
  {
    if b == [] {
      assert a + b == a;
    } else {
      var c := b[..|b| - 1];
      assert (a + b)[..|a + b| - 1] == a + c;
      IdentMapAppend(a, c);
    }
  }

  lemma {:induction false} ConcatAppend(a: seq<string>, b: seq<string>)
    ensures Concat(a + b) == Concat(a) + Concat(b)
    decreases |b|
  {
    if b == [] {
      assert a + b == a;
    } else {
      var c := b[..|b| - 1];
      assert (a + b)[..|a + b| - 1] == a + c;
      ConcatAppend(a, c);
    }
  }

  /** Writing `a` then `b` to a writer is writing `a + b`. */
  lemma {:induction false} ThroughAppend(w: Writer, a: seq<string>, b: seq<string>)
    ensures Through(w, a + b) == Through(w, a) + Through(w, b)
    decreases w
  {
    match w
    case Base =>
    case Ident(inner) =>
      IdentMapAppend(a, b);
      ThroughAppend(inner, IdentMap(a), IdentMap(b));
  }

  /** Writing nothing writes nothing. */
  lemma {:induction false} ThroughEmpty(w: Writer)
    ensures Through(w, []) == []
    decreases w
  {
    match w
    case Base =>
    case Ident(inner) =>
      ThroughEmpty(inner);
  }

  /** Regrouping a concatenation: the loops of the writer methods use these
      to fold the fragment just written into the text so far. They add no
      fact of their own; naming the regrouping keeps the verifier from
      searching for it, which is costly with large terms. */
  lemma Append2<T>(s: seq<T>, a: seq<T>, b: seq<T>)
    ensures s + a + b == s + (a + b)
  {
  }

  lemma Append4<T>(s: seq<T>, a: seq<T>, b: seq<T>, c: seq<T>, d: seq<T>)
    ensures s + a + b + c + d == s + (a + b + c + d)
  {
  }

  /** Writing four documents in a row. */
  lemma RenderCat4(w: Writer, a: Doc, b: Doc, c: Doc, d: Doc)
    ensures Render(w, Cat(Cat(Cat(a, b), c), d)) == Render(w, a) + Render(w, b) + Render(w, c) + Render(w, d)
  {
    assert Render(w, Cat(Cat(a, b), c)) == Render(w, a) + Render(w, b) + Render(w, c);
  }

  /** The first `i + 1` items of a loop are the first `i` and then item `i`. */
  lemma LinesStep<T>(xs: seq<T>, i: nat, f: T -> Doc)
    requires i < |xs|
    ensures Lines(xs[..0], f) == Empty
    ensures Lines(xs[..i + 1], f) == Cat(Lines(xs[..i], f), f(xs[i]))
  {
    assert xs[..0] == [];
    assert xs[..i + 1][..i] == xs[..i];
  }

  /** `Ident` puts `INDENT` before every fragment and changes nothing else. */
  lemma {:induction false} IdentMapShape(fs: seq<string>)
    ensures |IdentMap(fs)| == 2 * |fs|
    ensures forall i | 0 <= i < |fs| :: IdentMap(fs)[2 * i] == INDENT && IdentMap(fs)[2 * i + 1] == fs[i]
    decreases |fs|
  {
    if fs != [] {
      IdentMapShape(fs[..|fs| - 1]);
    }
  }

  // ---------------------------------------------------------------------
  // What each value writes

  /** `Display for Ty`. */
  function TyText(t: Ty): seq<string> {
    match t
    case Enum(_) => ["enum"]
    case Integer => ["integer"]
    case Number => ["number"]
    case Boolean => ["boolean"]
    case String => ["string"]
    case Object => ["object"]
    case Any => ["any"]
    case ArrayOf(elem) => ["array of "] + TyText(elem)
    case Ref(id) => [id]
  }

  /** `Display for Param`: the three modifiers, the type, a space, the name. */
  function ParamText(p: Param): seq<string> {
    [Modifier(p.experimental, "experimental"), Modifier(p.deprecated, "deprecated"), Modifier(p.optional, "optional")]
      + TyText(p.ty) + [" ", p.name]
  }

  /** `Display for Variant`. */
  function VariantText(v: Variant): seq<string> {
    [v.name]
  }

  /** `Display for Redirect`. */
  function RedirectText(r: Redirect): seq<string> {
    ["redirect ", r.to]
  }

  function CommentDoc(comment: string): Doc {
    Text(["# ", comment])
  }

  /** `write_description`: `# ` and the comment, for each comment, with no
      line feed. */
  function DescriptionDoc(d: Description): Doc {
    Lines(d, CommentDoc)
  }

  /** A parameter inside `write_params` or a `properties` item. */
  function ParamLine(p: Param): Doc {
    Cat(DescriptionDoc(p.description), Text(ParamText(p) + ["\n"]))
  }

  /** `write_params`: the header line and the indented parameters, or
      nothing at all for an empty list. */
  function ParamsDoc(name: string, ps: seq<Param>): Doc {
    if ps == [] then Empty else Cat(Text([name, "\n"]), Nest(Lines(ps, ParamLine)))
  }

  /** A variant inside an `enum` item: its name alone, not its `Display`. */
  function VariantLine(v: Variant): Doc {
    Cat(DescriptionDoc(v.description), Text([v.name, "\n"]))
  }

  /** `Display for Item`. */
  function ItemDoc(i: Item): Doc {
    match i
    case Enum(vs) => Cat(Text(["enum\n"]), Nest(Lines(vs, VariantLine)))
    case Properties(ps) => Cat(Text(["properties\n"]), Nest(Lines(ps, ParamLine)))
  }

  /** The head line of a type: modifiers, id, ` extends `, the base type. */
  function TypeHeadText(t: Type): seq<string> {
    [Modifier(t.experimental, "experimental"), Modifier(t.deprecated, "deprecated"), Modifier(t.optional, "optional"), t.id, " extends "]
      + TyText(t.base) + ["\n"]
  }

  function ItemLine(item: Option<Item>): Doc {
    if item.Some? then Cat(ItemDoc(item.value), Text(["\n"])) else Empty
  }

  /** The description of a declaration followed by its head line. */
  function HeadDoc(d: Description, head: seq<string>): Doc {
    Cat(DescriptionDoc(d), Text(head))
  }

  /** `Display for Type`. */
  function TypeDoc(t: Type): Doc {
    Cat(HeadDoc(t.description, TypeHeadText(t)), Nest(ItemLine(t.item)))
  }

  /** The head line of a domain, command or event. */
  function DeclHeadText(experimental: bool, deprecated: bool, kw: string, name: string): seq<string> {
    [Modifier(experimental, "experimental"), Modifier(deprecated, "deprecated"), kw + " ", name, "\n"]
  }

  function RedirectLine(r: Option<Redirect>): Doc {
    if r.Some? then Text(RedirectText(r.value) + ["\n"]) else Empty
  }

  /** `Display for Command`: redirect, parameters and returns, all inside one
      `Ident` layer. */
  function CommandDoc(c: Command): Doc {
    Cat(HeadDoc(c.description, DeclHeadText(c.experimental, c.deprecated, "command", c.name)), Nest(CommandBody(c)))
  }

  function CommandBody(c: Command): Doc {
    Cat(Cat(RedirectLine(c.redirect), ParamsDoc("parameters", c.parameters)), ParamsDoc("returns", c.results))
  }

  /** `Display for Event`: the parameters get no `Ident` layer of their own. */
  function EventDoc(e: Event): Doc {
    Cat(HeadDoc(e.description, DeclHeadText(e.experimental, e.deprecated, "event", e.name)), ParamsDoc("parameters", e.parameters))
  }

  function DependencyLine(name: string): Doc {
    Text([name, "\n"])
  }

  function TypeLine(t: Type): Doc {
    Cat(Show(ShownType(t)), Text(["\n"]))
  }

  function CommandLine(c: Command): Doc {
    Cat(Show(ShownCommand(c)), Text(["\n"]))
  }

  function EventLine(e: Event): Doc {
    Cat(Show(ShownEvent(e)), Text(["\n"]))
  }

  /** The children of a domain: dependencies, types, commands, events, each
      list in stored order. */
  function DomainBody(d: Domain): Doc {
    Cat(Cat(Cat(Lines(d.dependencies, DependencyLine), Lines(d.types, TypeLine)),
            Lines(d.commands, CommandLine)),
        Lines(d.events, EventLine))
  }

  /** `Display for Domain`: the children inside one `Ident` layer. */
  function DomainDoc(d: Domain): Doc {
    Cat(HeadDoc(d.description, DeclHeadText(d.experimental, d.deprecated, "domain", d.name)), Nest(DomainBody(d)))
  }

  /** The version block: one literal piece around each number. */
  function VersionText(version: (nat, nat)): seq<string> {
    ["\n  version\n    major ", DecimalString(version.0), "\n    minor ", DecimalString(version.1), "\n\n\n"]
  }

  function DomainLine(d: Domain): Doc {
    Cat(Show(ShownDomain(d)), Text(["\n"]))
  }

  /** `Display for Protocol`. */
  function ProtocolDoc(p: Protocol): Doc {
    Cat(HeadDoc(p.description, VersionText(p.version)), Lines(p.domains, DomainLine))
  }

  /** What a nested declaration writes. */
  function Expand(v: Shown): Doc {
    match v
    case ShownType(t) => TypeDoc(t)
    case ShownCommand(c) => CommandDoc(c)
    case ShownEvent(e) => EventDoc(e)
    case ShownDomain(d) => DomainDoc(d)
  }

  lemma {:induction false} LinesHeight<T>(xs: seq<T>, f: T -> Doc, h: nat)
    requires forall x | x in xs :: Height(f(x)) <= h
    ensures Height(Lines(xs, f)) <= h
    decreases |xs|
  {
    if xs != [] {
      LinesHeight(xs[..|xs| - 1], f, h);
    }
  }

  lemma DescriptionFlat(d: Description)
    ensures Height(DescriptionDoc(d)) == 0
  {
    LinesHeight(d, CommentDoc, 0);
  }

  lemma ParamsFlat(ps: seq<Param>)
    ensures Height(Lines(ps, ParamLine)) == 0
  {
    forall p | p in ps
      ensures Height(ParamLine(p)) <= 0
    {
      DescriptionFlat(p.description);
    }
    LinesHeight(ps, ParamLine, 0);
  }

  lemma ParamsDocFlat(name: string, ps: seq<Param>)
    ensures Height(ParamsDoc(name, ps)) == 0
  {
    ParamsFlat(ps);
  }

  lemma ItemFlat(i: Item)
    ensures Height(ItemDoc(i)) == 0
  {
    match i
    case Enum(vs) =>
      forall v | v in vs
        ensures Height(VariantLine(v)) <= 0
      {
        DescriptionFlat(v.description);
      }
      LinesHeight(vs, VariantLine, 0);
    case Properties(ps) =>
      ParamsFlat(ps);
  }

  lemma TypeFlat(t: Type)
    ensures Height(TypeDoc(t)) == 0
  {
    DescriptionFlat(t.description);
    if t.item.Some? {
      ItemFlat(t.item.value);
    }
    assert Height(ItemLine(t.item)) == 0;
    assert Height(HeadDoc(t.description, TypeHeadText(t))) == 0;
  }

  lemma CommandFlat(c: Command)
    ensures Height(CommandDoc(c)) == 0
  {
    DescriptionFlat(c.description);
    ParamsDocFlat("parameters", c.parameters);
    ParamsDocFlat("returns", c.results);
    assert Height(RedirectLine(c.redirect)) == 0;
    assert Height(CommandBody(c)) == 0;
    assert Height(HeadDoc(c.description, DeclHeadText(c.experimental, c.deprecated, "command", c.name))) == 0;
  }

  lemma EventFlat(e: Event)
    ensures Height(EventDoc(e)) == 0
  {
    DescriptionFlat(e.description);
    ParamsDocFlat("parameters", e.parameters);
    assert Height(HeadDoc(e.description, DeclHeadText(e.experimental, e.deprecated, "event", e.name))) == 0;
  }

  lemma DomainLow(d: Domain)
    ensures Height(DomainDoc(d)) <= 1
  {
    DescriptionFlat(d.description);
    LinesHeight(d.dependencies, DependencyLine, 1);
    LinesHeight(d.types, TypeLine, 1);
    LinesHeight(d.commands, CommandLine, 1);
    LinesHeight(d.events, EventLine, 1);
    assert Height(Cat(Lines(d.dependencies, DependencyLine), Lines(d.types, TypeLine))) <= 1;
    assert Height(DomainBody(d)) <= 1;
    assert Height(HeadDoc(d.description, DeclHeadText(d.experimental, d.deprecated, "domain", d.name))) == 0;
  }

  /** Expanding a nested declaration lowers the height, so `Render` ends. */
  lemma ExpandLower(v: Shown)
    ensures Height(Expand(v)) < Height(Show(v))
  {
    match v
    case ShownType(t) => TypeFlat(t);
    case ShownCommand(c) => CommandFlat(c);
    case ShownEvent(e) => EventFlat(e);
    case ShownDomain(d) => DomainLow(d);
  }

  // ---------------------------------------------------------------------
  // The sink and the writers

  /** The base `fmt::Write` sink: the fragments written to it so far. */
  class Sink {
    var frags: seq<string>

    constructor ()
      ensures frags == []
    {
      frags := [];
    }
  }

  /** `write_str` on `w`: the base sink records `s`; an `Ident` layer writes
      `INDENT` and then `s` to its inner writer, as two separate calls. */
  method WriteStr(out: Sink, w: Writer, s: string)
    modifies out
    ensures out.frags == old(out.frags) + Through(w, [s])
    decreases w
  {
    match w
    case Base =>
      out.frags := out.frags + [s];
    case Ident(inner) =>
      WriteStr(out, inner, INDENT);
      WriteStr(out, inner, s);
      assert IdentMap([s]) == [INDENT] + [s] by {
        assert [s][..0] == [];
      }
      ThroughAppend(inner, [INDENT], [s]);
  }

  /** One `write!` with fixed pieces: each fragment one `write_str` call. */
  method Write(out: Sink, w: Writer, fs: seq<string>)
    modifies out
    ensures out.frags == old(out.frags) + Render(w, Text(fs))
  {
    ghost var start := out.frags;
    assert fs[..0] == [];
    ThroughEmpty(w);
    for i := 0 to |fs|
      invariant out.frags == start + Through(w, fs[..i])
    {
      WriteStr(out, w, fs[i]);
      assert fs[..i + 1] == fs[..i] + [fs[i]];
      ThroughAppend(w, fs[..i], [fs[i]]);
    }
    assert fs[..|fs|] == fs;
  }

  /** `write_description`. */
  method WriteDescription(out: Sink, w: Writer, d: Description)
    modifies out
    ensures out.frags == old(out.frags) + Render(w, DescriptionDoc(d))
  {
    ghost var start := out.frags;
    for i := 0 to |d|
      invariant out.frags == start + Render(w, Lines(d[..i], CommentDoc))
    {
      LinesStep(d, i, CommentDoc);
      Write(out, w, ["# ", d[i]]);
      Append2(start, Render(w, Lines(d[..i], CommentDoc)), Render(w, CommentDoc(d[i])));
    }
    assert d[..|d|] == d;
  }

  /** One parameter line: its description, then its `Display` and a line feed. */
  method WriteParamLine(out: Sink, w: Writer, p: Param)
    modifies out
    ensures out.frags == old(out.frags) + Render(w, ParamLine(p))
  {
    WriteDescription(out, w, p.description);
    Write(out, w, ParamText(p) + ["\n"]);
  }

  /** One variant line: its description, then its name and a line feed. */
  method WriteVariantLine(out: Sink, w: Writer, v: Variant)
    modifies out
    ensures out.frags == old(out.frags) + Render(w, VariantLine(v))
  {
    WriteDescription(out, w, v.description);
    Write(out, w, [v.name, "\n"]);
  }

  /** A description and a head line. */
  method WriteHead(out: Sink, w: Writer, d: Description, head: seq<string>)
    modifies out
    ensures out.frags == old(out.frags) + Render(w, HeadDoc(d, head))
  {
    WriteDescription(out, w, d);
    Write(out, w, head);
  }

  /** The parameters of `write_params` or of a `properties` item. */
  method WriteParamLines(out: Sink, w: Writer, ps: seq<Param>)
    modifies out
    ensures out.frags == old(out.frags) + Render(w, Lines(ps, ParamLine))
  {
    ghost var start := out.frags;
    for i := 0 to |ps|
      invariant out.frags == start + Render(w, Lines(ps[..i], ParamLine))
    {
      LinesStep(ps, i, ParamLine);
      WriteParamLine(out, w, ps[i]);
      Append2(start, Render(w, Lines(ps[..i], ParamLine)), Render(w, ParamLine(ps[i])));
    }
    assert ps[..|ps|] == ps;
  }

  /** `write_params`. */
  method WriteParams(out: Sink, w: Writer, name: string, ps: seq<Param>)
    modifies out
    ensures out.frags == old(out.frags) + Render(w, ParamsDoc(name, ps))
  {
    if |ps| > 0 {
      Write(out, w, [name, "\n"]);
      WriteParamLines(out, Ident(w), ps);
    }
  }

  /** The variants of an `enum` item. */
  method WriteVariantLines(out: Sink, w: Writer, vs: seq<Variant>)
    modifies out
    ensures out.frags == old(out.frags) + Render(w, Lines(vs, VariantLine))
  {
    ghost var start := out.frags;
    for i := 0 to |vs|
      invariant out.frags == start + Render(w, Lines(vs[..i], VariantLine))
    {
      LinesStep(vs, i, VariantLine);
      WriteVariantLine(out, w, vs[i]);
      Append2(start, Render(w, Lines(vs[..i], VariantLine)), Render(w, VariantLine(vs[i])));
    }
    assert vs[..|vs|] == vs;
  }

  /** `Display for Item`. */
  method WriteItem(out: Sink, w: Writer, i: Item)
    modifies out
    ensures out.frags == old(out.frags) + Render(w, ItemDoc(i))
  {
    match i
    case Enum(vs) =>
      Write(out, w, ["enum\n"]);
      WriteVariantLines(out, Ident(w), vs);
    case Properties(ps) =>
      Write(out, w, ["properties\n"]);
      WriteParamLines(out, Ident(w), ps);
  }

  /** A type as one item of its list: its `Display`, then a line feed. */
  method WriteTypeLine(out: Sink, w: Writer, t: Type)
    modifies out
    ensures out.frags == old(out.frags) + Render(w, TypeLine(t))
  {
    WriteType(out, w, t);
    Write(out, w, ["\n"]);
    assert Render(w, TypeLine(t)) == Render(w, TypeDoc(t)) + Render(w, Text(["\n"]));
  }

  /** The item of a type and the blank line after it, if there is one. */
  method WriteItemLine(out: Sink, w: Writer, item: Option<Item>)
    modifies out
    ensures out.frags == old(out.frags) + Render(w, ItemLine(item))
  {
    if item.Some? {
      WriteItem(out, w, item.value);
      Write(out, w, ["\n"]);
    }
  }

  /** `Display for Type`. */
  method WriteType(out: Sink, w: Writer, t: Type)
    modifies out
    ensures out.frags == old(out.frags) + Render(w, TypeDoc(t))
  {
    ghost var start := out.frags;
    WriteHead(out, w, t.description, TypeHeadText(t));
    WriteItemLine(out, Ident(w), t.item);
    assert Render(w, TypeDoc(t)) == Render(w, HeadDoc(t.description, TypeHeadText(t))) + Render(Ident(w), ItemLine(t.item));
    Append2(start, Render(w, HeadDoc(t.description, TypeHeadText(t))), Render(Ident(w), ItemLine(t.item)));
  }

  /** A command as one item of its list: its `Display`, then a line feed. */
  method WriteCommandLine(out: Sink, w: Writer, c: Command)
    modifies out
    ensures out.frags == old(out.frags) + Render(w, CommandLine(c))
  {
    WriteCommand(out, w, c);
    Write(out, w, ["\n"]);
    assert Render(w, CommandLine(c)) == Render(w, CommandDoc(c)) + Render(w, Text(["\n"]));
  }

  /** `Display for Command`. */
  method WriteCommand(out: Sink, w: Writer, c: Command)
    modifies out
    ensures out.frags == old(out.frags) + Render(w, CommandDoc(c))
  {
    ghost var start := out.frags;
    var head := DeclHeadText(c.experimental, c.deprecated, "command", c.name);
    WriteHead(out, w, c.description, head);
    WriteCommandBody(out, Ident(w), c);
    assert Render(w, CommandDoc(c)) == Render(w, HeadDoc(c.description, head)) + Render(Ident(w), CommandBody(c));
    Append2(start, Render(w, HeadDoc(c.description, head)), Render(Ident(w), CommandBody(c)));
  }

  /** The redirect, parameters and returns of a command. */
  method WriteCommandBody(out: Sink, w: Writer, c: Command)
    modifies out
    ensures out.frags == old(out.frags) + Render(w, CommandBody(c))
  {
    ghost var start := out.frags;
    if c.redirect.Some? {
      Write(out, w, RedirectText(c.redirect.value) + ["\n"]);
    }
    assert out.frags == start + Render(w, RedirectLine(c.redirect));
    WriteParams(out, w, "parameters", c.parameters);
    WriteParams(out, w, "returns", c.results);
    Append2(start, Render(w, RedirectLine(c.redirect)), Render(w, ParamsDoc("parameters", c.parameters)));
    Append2(start, Render(w, Cat(RedirectLine(c.redirect), ParamsDoc("parameters", c.parameters))), Render(w, ParamsDoc("returns", c.results)));
  }

  /** An event as one item of its list: its `Display`, then a line feed. */
  method WriteEventLine(out: Sink, w: Writer, e: Event)
    modifies out
    ensures out.frags == old(out.frags) + Render(w, EventLine(e))
  {
    WriteEvent(out, w, e);
    Write(out, w, ["\n"]);
    assert Render(w, EventLine(e)) == Render(w, EventDoc(e)) + Render(w, Text(["\n"]));
  }

  /** `Display for Event`. */
  method WriteEvent(out: Sink, w: Writer, e: Event)
    modifies out
    ensures out.frags == old(out.frags) + Render(w, EventDoc(e))
  {
    ghost var start := out.frags;
    var head := DeclHeadText(e.experimental, e.deprecated, "event", e.name);
    WriteHead(out, w, e.description, head);
    WriteParams(out, w, "parameters", e.parameters);
    Append2(start, Render(w, HeadDoc(e.description, head)), Render(w, ParamsDoc("parameters", e.parameters)));
  }

  /** The dependencies of a domain: one bare name per line. */
  method WriteDependencies(out: Sink, w: Writer, deps: seq<string>)
    modifies out
    ensures out.frags == old(out.frags) + Render(w, Lines(deps, DependencyLine))
  {
    ghost var start := out.frags;
    for i := 0 to |deps|
      invariant out.frags == start + Render(w, Lines(deps[..i], DependencyLine))
    {
      LinesStep(deps, i, DependencyLine);
      Write(out, w, [deps[i], "\n"]);
      Append2(start, Render(w, Lines(deps[..i], DependencyLine)), Render(w, DependencyLine(deps[i])));
    }
    assert deps[..|deps|] == deps;
  }

  method WriteTypes(out: Sink, w: Writer, types: seq<Type>)
    modifies out
    ensures out.frags == old(out.frags) + Render(w, Lines(types, TypeLine))
  {
    ghost var start := out.frags;
    for i := 0 to |types|
      invariant out.frags == start + Render(w, Lines(types[..i], TypeLine))
    {
      LinesStep(types, i, TypeLine);
      WriteTypeLine(out, w, types[i]);
      Append2(start, Render(w, Lines(types[..i], TypeLine)), Render(w, TypeLine(types[i])));
    }
    assert types[..|types|] == types;
  }

  method WriteCommands(out: Sink, w: Writer, commands: seq<Command>)
    modifies out
    ensures out.frags == old(out.frags) + Render(w, Lines(commands, CommandLine))
  {
    ghost var start := out.frags;
    for i := 0 to |commands|
      invariant out.frags == start + Render(w, Lines(commands[..i], CommandLine))
    {
      LinesStep(commands, i, CommandLine);
      WriteCommandLine(out, w, commands[i]);
      Append2(start, Render(w, Lines(commands[..i], CommandLine)), Render(w, CommandLine(commands[i])));
    }
    assert commands[..|commands|] == commands;
  }

  method WriteEvents(out: Sink, w: Writer, events: seq<Event>)
    modifies out
    ensures out.frags == old(out.frags) + Render(w, Lines(events, EventLine))
  {
    ghost var start := out.frags;
    for i := 0 to |events|
      invariant out.frags == start + Render(w, Lines(events[..i], EventLine))
    {
      LinesStep(events, i, EventLine);
      WriteEventLine(out, w, events[i]);
      Append2(start, Render(w, Lines(events[..i], EventLine)), Render(w, EventLine(events[i])));
    }
    assert events[..|events|] == events;
  }

  /** A domain as one item of its list: its `Display`, then a line feed. */
  method WriteDomainLine(out: Sink, w: Writer, d: Domain)
    modifies out
    ensures out.frags == old(out.frags) + Render(w, DomainLine(d))
  {
    WriteDomain(out, w, d);
    Write(out, w, ["\n"]);
    assert Render(w, DomainLine(d)) == Render(w, DomainDoc(d)) + Render(w, Text(["\n"]));
  }

  /** `Display for Domain`. */
  method WriteDomain(out: Sink, w: Writer, d: Domain)
    modifies out
    ensures out.frags == old(out.frags) + Render(w, DomainDoc(d))
  {
    ghost var start := out.frags;
    var head := DeclHeadText(d.experimental, d.deprecated, "domain", d.name);
    WriteHead(out, w, d.description, head);
    WriteDomainBody(out, Ident(w), d);
    assert Render(w, DomainDoc(d)) == Render(w, HeadDoc(d.description, head)) + Render(Ident(w), DomainBody(d));
    Append2(start, Render(w, HeadDoc(d.description, head)), Render(Ident(w), DomainBody(d)));
  }

  /** The dependencies, types, commands and events of a domain. */
  method WriteDomainBody(out: Sink, w: Writer, d: Domain)
    modifies out
    ensures out.frags == old(out.frags) + Render(w, DomainBody(d))
  {
    ghost var start := out.frags;
    WriteDependencies(out, w, d.dependencies);
    WriteTypes(out, w, d.types);
    WriteCommands(out, w, d.commands);
    WriteEvents(out, w, d.events);
    RenderCat4(w, Lines(d.dependencies, DependencyLine), Lines(d.types, TypeLine), Lines(d.commands, CommandLine), Lines(d.events, EventLine));
    Append4(start, Render(w, Lines(d.dependencies, DependencyLine)), Render(w, Lines(d.types, TypeLine)),
            Render(w, Lines(d.commands, CommandLine)), Render(w, Lines(d.events, EventLine)));
  }

  method WriteDomains(out: Sink, w: Writer, domains: seq<Domain>)
    modifies out
    ensures out.frags == old(out.frags) + Render(w, Lines(domains, DomainLine))
  {
    ghost var start := out.frags;
    for i := 0 to |domains|
      invariant out.frags == start + Render(w, Lines(domains[..i], DomainLine))
    {
      LinesStep(domains, i, DomainLine);
      WriteDomainLine(out, w, domains[i]);
      Append2(start, Render(w, Lines(domains[..i], DomainLine)), Render(w, DomainLine(domains[i])));
    }
    assert domains[..|domains|] == domains;
  }

  /** `Display for Protocol`. */
  method WriteProtocol(out: Sink, w: Writer, p: Protocol)
    modifies out
    ensures out.frags == old(out.frags) + Render(w, ProtocolDoc(p))
  {
    WriteHead(out, w, p.description, VersionText(p.version));
    WriteDomains(out, w, p.domains);
  }

  /** `Protocol::to_string`: the text the base formatter receives. */
  method ToText(p: Protocol) returns (text: string)
    ensures text == Concat(Render(Base, ProtocolDoc(p)))
  {
    var out := new Sink();
    WriteProtocol(out, Base, p);
    assert out.frags == Render(Base, ProtocolDoc(p));
    text := Concat(out.frags);
  }
}
