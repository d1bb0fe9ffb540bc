/** The JSON helpers (src/ser.rs): how numbers, descriptions, enum variant
    lists, redirects and type expressions are handed to the serializer.
    JSON is kept as an abstract value; its byte layout is not modelled. */
module Ser {
  import opened Wrappers
  import opened Decimal
  import opened Pdl

  /** A JSON value as a serializer receives it; object entries keep the
      order in which they were emitted. */
  datatype Json =
    | Null
    | Str(s: string)
    | Arr(items: seq<Json>)
    | Obj(entries: seq<(string, Json)>)

  // ---------------------------------------------------------------------
  // Numbers

  /** `serialize_usize`: the number as a JSON string of its decimal digits,
      not as a JSON number. */
  function SerializeUsize(n: nat): (j: Json)
    ensures j.Str? && Canonical(j.s) && DigitsValue(j.s) == n
  {
    DecimalRoundTrip(n);
    Str(DecimalString(n))
  }

  /** Reads back a number written by `SerializeUsize`: a string of decimal
      digits without a leading zero. */
  function UsizeOf(j: Json): Option<nat> {
    if j.Str? && Canonical(j.s) then Some(DigitsValue(j.s)) else None
  }

  /** Every number reads back from its serialization, and every value that
      reads back as a number is that number's serialization. */
  lemma UsizeRoundTrip(n: nat, j: Json)
    ensures UsizeOf(SerializeUsize(n)) == Some(n)
    ensures UsizeOf(j) == Some(n) ==> SerializeUsize(n) == j
  {
    if UsizeOf(j) == Some(n) {
      CanonicalRoundTrip(j.s);
    }
  }

  // ---------------------------------------------------------------------
  // Descriptions

  /** `join(" ")`: the pieces with one space between neighbours; nothing
      for no pieces. */
  function Join(d: seq<string>): (s: string)
    ensures d == [] ==> s == []
    ensures |d| == 1 ==> s == d[0]
  {
    if d == [] then []
    else if |d| == 1 then d[0]
    else d[0] + " " + Join(d[1..])
  }

  /** `serialize_description`: the description's lines joined by single
      spaces into one JSON string. */
  function SerializeDescription(d: Description): (j: Json)
    ensures j.Str? && j.s == Join(d)
  {
    Str(Join(d))
  }

  /** `split(' ')`: the pieces of `s` between its spaces; one empty piece
      for the empty string. */
  function Split(s: string): (r: seq<string>)
    ensures |r| >= 1
    ensures forall k | 0 <= k < |r| :: ' ' !in r[k]
  {
    if s == [] then [[]]
    else if s[0] == ' ' then [[]] + Split(s[1..])
    else
      var tail := Split(s[1..]);
      [[s[0]] + tail[0]] + tail[1..]
  }

  /** Splitting a space-free piece followed by more text ends that piece at
      the first space. */
  lemma {:induction false} SplitPiece(x: string, y: string)
    requires ' ' !in x
    ensures Split(x) == [x]
    ensures Split(x + " " + y) == [x] + Split(y)
    decreases |x|
  {
    if x != [] {
      assert ' ' !in x[1..] by {
        assert forall k | 0 <= k < |x[1..]| :: x[1..][k] == x[k + 1];
      }
      SplitPiece(x[1..], y);
      assert (x + " " + y)[1..] == x[1..] + " " + y;
      assert [x[0]] + x[1..] == x;
    } else {
      assert (x + " " + y)[1..] == y;
    }
  }

  /** Joining lines that hold no space and splitting the result gives the
      lines back. */
  lemma {:induction false} SplitJoin(d: seq<string>)
    requires d != []
    requires forall k | 0 <= k < |d| :: ' ' !in d[k]
    ensures Split(Join(d)) == d
    decreases |d|
  {
    if |d| == 1 {
      SplitPiece(d[0], []);
    } else {
      SplitJoin(d[1..]);
      SplitPiece(d[0], Join(d[1..]));
      assert [d[0]] + d[1..] == d;
    }
  }

  /** Joining loses the line structure: one line holding a space and two
      lines without one serialize alike. */
  lemma DescriptionJoinLossy()
    ensures SerializeDescription(["a b"]) == SerializeDescription(["a", "b"])
    ensures ["a b"] != ["a", "b"]
  {
    assert Join(["a", "b"]) == "a" + " " + Join(["b"]);
  }

  // ---------------------------------------------------------------------
  // Enum variants

  /** The variant names, in order, as JSON strings. */
  function VariantNames(variants: seq<Variant>): (names: seq<Json>)
    ensures |names| == |variants|
    ensures forall k | 0 <= k < |variants| :: names[k] == Str(variants[k].name)
  {
    if variants == [] then []
    else [Str(variants[0].name)] + VariantNames(variants[1..])
  }

  /** `serialize_enum`: a JSON array of the variant names in order; the
      variants' descriptions are dropped. */
  function SerializeEnum(variants: seq<Variant>): (j: Json)
    ensures j.Arr? && |j.items| == |variants|
    ensures forall k | 0 <= k < |variants| :: j.items[k] == Str(variants[k].name)
  {
    Arr(VariantNames(variants))
  }

  /** Reads a list of names back as variants made by `Variant::new`. */
  function VariantsOf(items: seq<Json>): (r: Option<seq<Variant>>)
    ensures r.Some? <==> forall k | 0 <= k < |items| :: items[k].Str?
    ensures r.Some? ==> |r.value| == |items|
    ensures r.Some? ==> forall k | 0 <= k < |items| :: r.value[k] == NewVariant(items[k].s)
  {
    if items == [] then Some([])
    else if !items[0].Str? then None
    else
      match VariantsOf(items[1..])
      case None => None
      case Some(tail) => Some([NewVariant(items[0].s)] + tail)
  }

  /** A variant with its description dropped. */
  function Bare(v: Variant): Variant {
    NewVariant(v.name)
  }

  /** Reading back a serialized variant list gives the variants without
      their descriptions, so exactly the undocumented lists come back
      unchanged. */
  lemma EnumRoundTrip(variants: seq<Variant>)
    ensures VariantsOf(SerializeEnum(variants).items)
      == Some(seq(|variants|, k requires 0 <= k < |variants| => Bare(variants[k])))
    ensures VariantsOf(SerializeEnum(variants).items) == Some(variants)
      <==> forall k | 0 <= k < |variants| :: variants[k].description == []
  {
    var back := VariantsOf(SerializeEnum(variants).items).value;
    var bare := seq(|variants|, k requires 0 <= k < |variants| => Bare(variants[k]));
    assert back == bare;
    if back == variants {
      forall k | 0 <= k < |variants|
        ensures variants[k].description == []
      {
        assert back[k] == NewVariant(variants[k].name);
      }
    }
    if forall k | 0 <= k < |variants| :: variants[k].description == [] {
      assert back == variants;
    }
  }

  // ---------------------------------------------------------------------
  // Redirects and flags

  /** `serialize_redirect`: the redirect's target domain as a string, its
      description dropped; null when there is no redirect. */
  function SerializeRedirect(redirect: Option<Redirect>): (j: Json)
    ensures j.Null? <==> redirect.None?
    ensures redirect.Some? ==> j == Str(redirect.value.to)
  {
    match redirect
    case Some(r) => Str(r.to)
    case None => Null
  }

  /** Reads back a serialized redirect: null is no redirect, a string is a
      redirect to that domain with no description, anything else fails. */
  function RedirectOf(j: Json): Option<Option<Redirect>> {
    match j
    case Null => Some(None)
    case Str(to) => Some(Some(Redirect([], to)))
    case _ => None
  }

  /** Reading back a serialized redirect gives it without its description. */
  lemma RedirectRoundTrip(redirect: Option<Redirect>)
    ensures RedirectOf(SerializeRedirect(redirect)).Some?
    ensures RedirectOf(SerializeRedirect(redirect)).value.None? <==> redirect.None?
    ensures redirect.Some? ==>
      RedirectOf(SerializeRedirect(redirect)) == Some(Some(Redirect([], redirect.value.to)))
  {
  }

  /** `is_false`: holds exactly for `false`, the value a flag defaults to. */
  function IsFalse(v: bool): (r: bool)
    ensures r <==> v == false
  {
    !v
  }

  // ---------------------------------------------------------------------
  // Type expressions

  /** `impl Serialize for Ty`: a JSON Schema fragment. A keyword type is
      `{"type": kw}`; an enum is a string type with the list of its variant
      names; an array names its element schema under `items`; a reference
      is `{"$ref": id}`. */
  function TySchema(t: Ty): (j: Json)
    ensures j.Obj? && 1 <= |j.entries| <= 2
    ensures j.entries[0].0 == "$ref" <==> t.Ref?
    ensures |j.entries| == 2 <==> t.Enum? || t.ArrayOf?
  {
    match t
    case Integer => Obj([("type", Str("integer"))])
    case Number => Obj([("type", Str("number"))])
    case Boolean => Obj([("type", Str("boolean"))])
    case String => Obj([("type", Str("string"))])
    case Object => Obj([("type", Str("object"))])
    case Any => Obj([("type", Str("any"))])
    case Enum(variants) => Obj([("type", Str("string")), ("enum", SerializeEnum(variants))])
    case ArrayOf(elem) => Obj([("type", Str("array")), ("items", TySchema(elem))])
    case Ref(id) => Obj([("$ref", Str(id))])
  }

  /** Reads a one-entry schema back: a `type` keyword or a `$ref`. */
  function SingleOf(key: string, value: Json): Option<Ty> {
    if key == "$ref" && value.Str? then Some(Ref(value.s))
    else if key != "type" || !value.Str? then None
    else match value.s
      case "integer" => Some(Integer)
      case "number" => Some(Number)
      case "boolean" => Some(Boolean)
      case "string" => Some(String)
      case "object" => Some(Object)
      case "any" => Some(Any)
      case _ => None
  }

  /** Reads a schema fragment back as a type expression; fails on anything
      `TySchema` does not write. */
  function SchemaTy(j: Json): Option<Ty>
    decreases j
  {
    if !j.Obj? then None
    else if |j.entries| == 1 then SingleOf(j.entries[0].0, j.entries[0].1)
    else if |j.entries| != 2 then None
    else
      var (k0, v0) := j.entries[0];
      var (k1, v1) := j.entries[1];
      if k0 != "type" then None
      else if v0 == Str("string") && k1 == "enum" && v1.Arr? then
        match VariantsOf(v1.items)
        case None => None
        case Some(vs) => Some(Ty.Enum(vs))
      else if v0 == Str("array") && k1 == "items" then
        assert j.entries[1] in j.entries;
        match SchemaTy(v1)
        case None => None
        case Some(elem) => Some(ArrayOf(elem))
      else None
  }

  /** A type expression with the descriptions of its enum variants dropped. */
  function BareTy(t: Ty): Ty {
    match t
    case Enum(variants) => Ty.Enum(seq(|variants|, k requires 0 <= k < |variants| => Bare(variants[k])))
    case ArrayOf(elem) => ArrayOf(BareTy(elem))
    case _ => t
  }

  /** Reading back a type's schema gives the type with its enum variants'
      descriptions dropped. */
  lemma {:induction false} SchemaRoundTrip(t: Ty)
    ensures SchemaTy(TySchema(t)) == Some(BareTy(t))
  {
    match t
    case Enum(variants) =>
      EnumRoundTrip(variants);
    case ArrayOf(elem) =>
      SchemaRoundTrip(elem);
    case _ =>
  }

  /** Every type that `Ty::new` resolves survives the schema round trip
      unchanged, so distinct resolved types have distinct schemas. */
  lemma ResolvedSchemaRoundTrip(s: string, isArray: bool, s2: string, isArray2: bool)
    ensures SchemaTy(TySchema(NewTy(s, isArray))) == Some(NewTy(s, isArray))
    ensures TySchema(NewTy(s, isArray)) == TySchema(NewTy(s2, isArray2)) ==> s == s2 && isArray == isArray2
  {
    var t := NewTy(s, isArray);
    var t2 := NewTy(s2, isArray2);
    SchemaRoundTrip(t);
    SchemaRoundTrip(t2);
    assert BareTy(t) == t by {
      if isArray {
        assert BareTy(t.elem) == t.elem;
      }
    }
    assert BareTy(t2) == t2 by {
      if isArray2 {
        assert BareTy(t2.elem) == t2.elem;
      }
    }
    if TySchema(t) == TySchema(t2) {
      NewTyInjective(s, isArray, s2, isArray2);
    }
  }
}
