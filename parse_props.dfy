/** Properties of the grammar (src/parse.rs): the version rules stated
    through the results of their steps, what the modifier prefixes read,
    and the inline-enum step of `param`. */
module ParseProps {
  import opened Wrappers
  import opened Combinators
  import opened Lexer
  import opened Pdl
  import opened Decimal
  import opened Parse
  import opened Slices

  // ---------------------------------------------------------------------
  // The version block

  /** What `VersionLine` reads when its steps succeed up to the digit run
      and a line feed follows the run: the run's value, when `usize`
      parsing accepts it, and a failure otherwise. */
  lemma VersionLineSteps(key: string, c: Input, i: Parsed<string>, k: Parsed<string>, sp: Parsed<char>,
                         ds: Parsed<string>, e: Parsed<char>)
    requires Indent(c) == Some(i) && Tag(key, i.rest) == Some(k) && Char(' ', k.rest) == Some(sp)
    requires TakeWhile(IsDigit, sp.rest) == Some(ds) && AllDigits(ds.value) && Eol(ds.rest) == Some(e)
    ensures VersionLine(key, c)
      == if ParseUsize(ds.value).Some? then Some(Parsed(ParseUsize(ds.value).value, e.rest)) else None
  {
  }

  /** `ParseVersion` from the results of its steps. */
  lemma VersionSteps(c: Input, v: Parsed<string>, e: Parsed<char>, major: Parsed<nat>, minor: Parsed<nat>)
    requires Tag("version", c) == Some(v) && Eol(v.rest) == Some(e)
    requires VersionLine("major", e.rest) == Some(major) && VersionLine("minor", major.rest) == Some(minor)
    ensures ParseVersion(c) == Some(Parsed((major.value, minor.value), minor.rest))
  {
  }

  // ---------------------------------------------------------------------
  // Modifiers

  /** `ParamModifiers` from the results of its three probes. */
  lemma ModifierSteps(c: Input, x: Parsed<bool>, p: Parsed<bool>, o: Parsed<bool>)
    requires Optional("experimental", c).value == x
    requires Optional("deprecated", x.rest).value == p
    requires Optional("optional", p.rest).value == o
    ensures ParamModifiers(c) == Some(Parsed((x.value, p.value, o.value), o.rest))
  {
  }

  /** All three modifiers, in the order the grammar expects them, are read
      and consumed. */
  lemma ModifiersInOrder(text: string, pos: nat)
    requires pos + 33 <= |text| && text[pos..pos + 33] == "experimental deprecated optional "
    ensures ParamModifiers(Cursor(text, pos)) == Some(Parsed((true, true, true), Cursor(text, pos + 33)))
  {
    SliceSplit(text, pos, "experimental ", "deprecated optional ");
    SliceSplit(text, pos + 13, "deprecated ", "optional ");
    OptionalAt("experimental", text, pos);
    OptionalAt("deprecated", text, pos + 13);
    OptionalAt("optional", text, pos + 24);
    ModifierSteps(Cursor(text, pos), Parsed(true, Cursor(text, pos + 13)), Parsed(true, Cursor(text, pos + 24)),
                  Parsed(true, Cursor(text, pos + 33)));
  }

  /** A modifier out of order is not read: after `optional ` the grammar no
      longer looks for `deprecated `, which is left for the type. */
  lemma ModifiersOutOfOrder(text: string, pos: nat)
    requires pos + 20 <= |text| && text[pos..pos + 20] == "optional deprecated "
    ensures ParamModifiers(Cursor(text, pos)) == Some(Parsed((false, false, true), Cursor(text, pos + 9)))
  {
    SliceSplit(text, pos, "optional ", "deprecated ");
    OptionalMiss("experimental", text, pos);
    OptionalMiss("deprecated", text, pos);
    OptionalAt("optional", text, pos);
    ModifierSteps(Cursor(text, pos), Parsed(false, Cursor(text, pos)), Parsed(false, Cursor(text, pos)),
                  Parsed(true, Cursor(text, pos + 9)));
  }

  // ---------------------------------------------------------------------
  // Inline enums

  /** The variant lines after a parameter declared with a bare `enum` type
      become its variants, in order; without at least one variant line the
      parameter fails. A parameter of any other type is its head alone. */
  lemma EnumParamVariants(c: Input)
    ensures ParseParamHead(c).None? ==> ParseParam(c).None?
    ensures ParseParamHead(c).Some? && !ParseParamHead(c).value.value.ty.Enum? ==>
      ParseParam(c) == ParseParamHead(c)
    ensures ParseParamHead(c).Some? && ParseParamHead(c).value.value.ty.Enum? ==>
      var h := ParseParamHead(c).value;
      && (ParseParam(c).Some? <==> ParseVariant(h.rest).Some?)
      && (ParseParam(c).Some? ==>
            var vs := Many1(ParseVariant, h.rest).value;
            ParseParam(c).value == Parsed(h.value.(ty := Ty.Enum(vs.value)), vs.rest))
  {
    if ParseParamHead(c).Some? && ParseParamHead(c).value.value.ty.Enum? {
      var h := ParseParamHead(c).value;
      assert h.value.ty.variants == [];
      if ParseVariant(h.rest).Some? {
        Many0Total(ParseVariant, ParseVariant(h.rest).value.rest);
        var vs := Many1(ParseVariant, h.rest).value;
        assert [] + vs.value == vs.value;
      }
    }
  }
}
