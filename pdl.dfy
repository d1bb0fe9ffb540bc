/** The PDL document model (src/lib.rs): a Protocol holds Domains, a Domain
    holds Types, Commands and Events, and those hold Params, Variants and a
    Redirect. Text fields are owned strings where the source borrows `&str`
    slices of the input. */
module Pdl {
  import opened Wrappers

  /** The comment lines that document a declaration, trimmed, in source order. */
  type Description = seq<string>

  datatype Protocol = Protocol(
    description: Description,
    version: (nat, nat),     // (major, minor)
    domains: seq<Domain>)

  datatype Domain = Domain(
    description: Description,
    experimental: bool,
    deprecated: bool,
    name: string,
    dependencies: seq<string>,
    types: seq<Type>,
    commands: seq<Command>,
    events: seq<Event>)

  /** A named type declaration; `base` is the type named after `extends`. */
  datatype Type = Type(
    description: Description,
    experimental: bool,
    deprecated: bool,
    optional: bool,
    id: string,
    base: Ty,
    item: Option<Item>)

  /** A type expression. `Ref` holds a name that is never resolved. */
  datatype Ty =
    | Enum(variants: seq<Variant>)
    | Integer
    | Number
    | Boolean
    | String
    | Object
    | Any
    | ArrayOf(elem: Ty)
    | Ref(id: string)

  datatype Item = Enum(variants: seq<Variant>) | Properties(props: seq<Param>)

  datatype Variant = Variant(description: Description, name: string)

  datatype Param = Param(
    description: Description,
    experimental: bool,
    deprecated: bool,
    optional: bool,
    ty: Ty,
    name: string)

  datatype Command = Command(
    description: Description,
    experimental: bool,
    deprecated: bool,
    name: string,
    redirect: Option<Redirect>,
    parameters: seq<Param>,
    results: seq<Param>)   // the `returns` block

  datatype Event = Event(
    description: Description,
    experimental: bool,
    deprecated: bool,
    name: string,
    parameters: seq<Param>)

  datatype Redirect = Redirect(description: Description, to: string)

  /** The closed table of type keywords that `NewTy` recognises. */
  const Keywords: set<string> := {"enum", "integer", "number", "boolean", "string", "object", "any"}

  /** Number of `ArrayOf` layers around a type. */
  function ArrayDepth(t: Ty): nat {
    if t.ArrayOf? then 1 + ArrayDepth(t.elem) else 0
  }

  /** `Ty::new`: resolves a bare type token; the array flag wraps the resolved
      token exactly once. */
  function NewTy(s: string, isArray: bool): (t: Ty)
    ensures t.ArrayOf? <==> isArray
    ensures ArrayDepth(t) == if isArray then 1 else 0
    ensures t.Ref? <==> !isArray && s !in Keywords
    ensures t.Ref? ==> t.id == s
    ensures t.Enum? ==> t.variants == []
    ensures !isArray ==>
      && (t.Enum? <==> s == "enum") && (t.Integer? <==> s == "integer") && (t.Number? <==> s == "number")
      && (t.Boolean? <==> s == "boolean") && (t.String? <==> s == "string") && (t.Object? <==> s == "object")
      && (t.Any? <==> s == "any")
  {
    if isArray then
      Ty.ArrayOf(NewTy(s, false))
    else
      match s
      case "enum" => Ty.Enum([])
      case "integer" => Integer
      case "number" => Number
      case "boolean" => Boolean
      case "string" => String
      case "object" => Object
      case "any" => Any
      case _ => Ref(s)
  }

  /** `Variant::new`: a variant made from a bare name, with no description. */
  function NewVariant(name: string): (v: Variant)
    ensures v.description == [] && v.name == name
  {
    Variant([], name)
  }

  /** With the array flag set, `NewTy` is the unflagged result wrapped once. */
  lemma NewTyArray(s: string)
    ensures NewTy(s, true) == Ty.ArrayOf(NewTy(s, false))
    ensures !NewTy(s, false).ArrayOf?
  {
  }

  /** Distinct (token, flag) pairs resolve to distinct types. */
  lemma NewTyInjective(s1: string, a1: bool, s2: string, a2: bool)
    requires NewTy(s1, a1) == NewTy(s2, a2)
    ensures s1 == s2 && a1 == a2
  {
    if a1 {
      assert NewTy(s1, false) == NewTy(s2, false);
    }
  }
}
