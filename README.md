# rust-pdl in Dafny

A model of the front end of `pdl`, the Rust library for the Chrome DevTools
protocol definition language (PDL), with proofs about it. The model has four
parts:

- **The document model** (`pdl.dfy`). A `Protocol` holds `Domain`s. A domain
  holds `Type`s, `Command`s and `Event`s. Those hold `Param`s, `Variant`s and
  a `Redirect`. `Ty` is the recursive type expression, and `NewTy` is the
  type-token resolver `Ty::new`.
- **The parser** (`combinators.dfy`, `lexer.dfy`, `decimal.dfy`, `parse.dfy`).
  Each nom rule is a function from an input cursor to `Some(Parsed(value,
  rest))` or `None`. A cursor is a text and a position. The remaining input is
  the text after the position, so a successful rule always leaves a suffix of
  its input. Because a failure carries no cursor, a failed attempt consumes
  nothing. `many0` keeps nom's rule that an item parser which succeeds without
  consuming anything is an error. Version numbers are `usize` values: a digit
  run above 2^64 - 1 fails, as `usize::from_str` does on a 64-bit target.
- **The canonical-text renderer** (`display.dfy`). Each `Display` impl is
  described by a document (`Doc`) of fragments and `Ident` layers. `Render`
  gives the fragments that reach the base formatter. Every `write_str` call
  is one fragment: each non-empty literal piece of a `write!`/`writeln!`
  format string is one, and so is each `&str` or number argument. The impls
  that loop over their children and wrap the sink in `Ident` are methods on a
  `Sink` class. Each one appends exactly its document's fragments to the sink.
- **The JSON helpers** (`ser.dfy`). JSON is an abstract value: string, array,
  object with ordered entries, or null (the helpers emit no booleans). The
  number, enum, redirect and schema helpers have a reader beside them, and
  the round trip is proved: for every value for numbers and enums; for
  redirects without a description (the helper drops it); for schemas, up
  to the descriptions of enum variants, which the schema drops. The
  description helper joins lines with spaces, and splitting gives the lines
  back only for a non-empty list of lines without spaces;
  `DescriptionJoinLossy` shows two descriptions that join alike.
  `is_false` has no reader: it is a predicate on a flag.

What each parser rule reads is stated over any text, in three layers.
`slices.dfy` holds facts about what the lexical primitives read from a text
with known contents, where `At(text, pos, s)` says that `s` stands in `text`
at `pos`. `parse_reads.dfy` and `parse_lines.dfy` state what each line-level
rule yields from the text of its line. `parse_rules.dfy` states what each
rule yields from its lines and its children: a list of children is stated
as a chain, each item read by the child rule where the previous one
stopped. `parse_examples.dfy` and `version_demo.dfy` apply these to inputs of
the parser's own tests. `parse_props.dfy` and `display_props.dfy` hold the
properties that relate several rules or renderers.

## Model

| member | source | states |
|---|---|---|
| Pdl.NewTy | src/lib.rs:67-84 | The result is an `ArrayOf` exactly when the array flag is set, and then it has one array layer. Without the flag, each of the seven keywords `enum`, `integer`, `number`, `boolean`, `string`, `object` and `any` gives its own constructor and nothing else does. Any other token gives `Ref` with the token unchanged. `enum` gives an empty variant list. |
| Pdl.NewTyArray | src/lib.rs:68-71 | The flagged result is the unflagged result wrapped in one `ArrayOf`. The unflagged result is never an array, so nesting never goes deeper than one level. |
| Pdl.NewTyInjective | src/lib.rs:67-84 | Equal results come from equal (token, flag) pairs. |
| Pdl.NewVariant | src/lib.rs:100-107 | `Variant::new` has an empty description and the given name. |
| Combinators.Many0 | src/parse.rs:104-107 | `many0` advances along the same text and stops where the item parser fails. It gives the empty list, consuming nothing, when the first attempt fails, and otherwise its first element is the first item. |
| Combinators.Many0Total | src/parse.rs:51 | With an item parser that always consumes, `many0` never fails. |
| Combinators.Many0Chain | src/parse.rs:104-107 | `many0` yields `vs` and stops at `e` exactly when the item parser reads the items of `vs` one after another, each consuming input, and then fails at `e`. |
| Combinators.Many1 | src/parse.rs:28 | `many1` fails when the first attempt fails. Otherwise its first item is that attempt's result, it yields at least one item, and it stops where the item parser fails. |
| Combinators.Many1Chain | src/parse.rs:28 | `many1` yields `vs` and stops at `e` exactly when `vs` is not empty and the item parser reads its items one after another and then fails at `e`. |
| Combinators.Opt | src/parse.rs:159 | `opt` never fails. It gives `None` and consumes nothing exactly when the inner parser fails, and otherwise gives the inner result. |
| Combinators.Alt | src/parse.rs:211-222 | `alt` succeeds exactly when one branch does. It is the first branch when that succeeds, and the second branch otherwise. |
| Combinators.Preceded | src/parse.rs:105 | `preceded` fails when its first parser fails, and otherwise is its second parser run where the first stopped. |
| Lexer.TakeWhile | src/parse.rs:135 | `take_while` never fails. It takes the maximal run of matching characters at the cursor and stops at a character that does not match, or at the end. |
| Lexer.TakeUntilNewline | src/parse.rs:59 | `take_until("\n")` succeeds exactly when a line feed follows. It then returns the text before the line feed, which contains no line feed, and stops at it. |
| Lexer.Char | src/parse.rs:58 | `char(ch)` succeeds exactly when `ch` stands at the cursor, and it consumes that one character. |
| Lexer.Tag | src/parse.rs:69 | `tag(t)` succeeds exactly when the remaining input starts with `t`, and it consumes `t`. |
| Lexer.Eol | src/parse.rs:46-48 | `eol` succeeds exactly on a line feed, and it consumes one character. |
| Lexer.Recognize | src/parse.rs:39 | `recognize` succeeds when its parser does, stops where it stops, and returns the text consumed. |
| Lexer.BlankRun | src/parse.rs:39 | `is_a(" \t")` succeeds exactly on a blank, and it consumes the maximal run of blanks. |
| Lexer.BlankRunsIsOneRun | src/parse.rs:39 | `many1(is_a(" \t"))` succeeds and stops exactly as one `is_a` run does. |
| Lexer.Indent | src/parse.rs:38-40 | `indent` succeeds exactly on a leading blank. It consumes the maximal run of spaces and tabs, whatever its width. |
| Lexer.IndentIsRecognizedRuns | src/parse.rs:38-40 | `Indent` is `recognize(many1(is_a(" \t")))`. |
| Lexer.EmptyLines | src/parse.rs:42-44 | `empty_lines` never fails. It consumes the maximal run of line feeds and stops before a character that is not a line feed. |
| Lexer.TrimShape | src/parse.rs:59 | `str::trim` returns characters of its input, no longer than the input, with no whitespace at either end. |
| Lexer.KeywordSpace | src/parse.rs:400 | `pair(tag(kw), char(' '))` succeeds exactly on `kw` followed by a space, and it consumes both. |
| Lexer.Optional | src/parse.rs:392-401 | `optional(kw)` never fails. It is true and consumes `kw` and a space exactly when they stand at the cursor. Otherwise it is false and consumes nothing. |
| Decimal.DecimalRoundTrip | src/ser.rs:8-13 | `to_string` of a number is a canonical digit run that reads back as the number. |
| Decimal.CanonicalRoundTrip | src/parse.rs:74 | A canonical digit run read as a number and written back gives the same run. |
| Parse.ParseUsize | src/parse.rs:74 | `usize::from_str` on a digit run succeeds exactly when the run is not empty and its value fits in a 64-bit `usize`, and it then yields that value. |
| Parse.CommentShape | src/parse.rs:54-64 | Without a line feed ahead, `comment` fails. Its result holds no line feed and has no whitespace at either end. |
| ParseLines.CommentAt | src/parse.rs:54-64 | A comment line (an optional indent, `#`, a body without a line feed, a line feed) reads as the trimmed body, and `comment` stops after the line feed. |
| ParseLines.NoCommentAt | src/parse.rs:54-64 | A line whose first character after the indent is neither `#` nor a blank is not a comment. |
| Parse.ParseDescription | src/parse.rs:50-52 | `description` never fails and stops at the first line that is not a comment. |
| ParseLines.DescriptionIsChain | src/parse.rs:50-52 | `description` yields `d` and stops at `e` exactly when `comment` reads the items of `d` one after another and then fails at `e`. |
| ParseReads.VersionLineAt | src/parse.rs:70-76 | An indented `<key> <digits>` line succeeds exactly when the digit run is not empty and fits in a `usize`. It then yields the run's value and stops after the line feed. |
| ParseReads.VersionNumberAt | src/parse.rs:70-83 | A `usize` written in decimal on a `major` or `minor` line reads back as itself. |
| ParseReads.VersionDigitsAt | src/parse.rs:66-90 | A `version` line followed by a `major` and a `minor` line whose digit runs are not empty and fit in a `usize` reads as the pair of the two values, and stops after the block. |
| ParseReads.VersionAt | src/parse.rs:66-90 | A version block that writes two `usize` numbers in decimal reads back as those two numbers, in order, and stops after the block. |
| ParseReads.NameLineAt | src/parse.rs:129-140 | An indented line of a keyword, a space, a token and a line feed reads as the token and stops after the line feed. |
| ParseReads.DependsOnAt | src/parse.rs:129-140 | An indented `depends on <name>` line reads as the name and stops after the line feed. |
| Parse.ParseTy | src/parse.rs:182-190 | `ty` never fails. It stops at whitespace or at the end of the input. |
| Parse.TyShape | src/parse.rs:182-190 | At any position, `ty` skips an `array of ` prefix when one is there, takes the run of non-whitespace characters after it, and yields `Ty::new` of that run with the array flag set exactly when the prefix was there. |
| ParseReads.TyAt | src/parse.rs:182-190 | The text of `Ty::new(s, b)` followed by whitespace reads back at any position as `Ty::new(s, b)`, and `ty` stops right after it. For an unflagged token the text must not start with `array of `. |
| Parse.Flags | src/parse.rs:97-98 | The two probes never fail. The first flag is set exactly when the input starts with `experimental `. The second is set exactly when `deprecated ` follows where the first probe stopped. The probes consume exactly the words they read. |
| ParseReads.FlagsAt | src/parse.rs:97-98 | The `experimental ` and `deprecated ` prefixes, each written only when its flag is set, read back as the two flags when the text after them starts with neither word. |
| Parse.ParamModifiers | src/parse.rs:252-254 | The three probes never fail. The first two flags are those `Flags` reads, and `optional` is set exactly when `optional ` follows where they stopped. The probes consume exactly the words they read. |
| ParseReads.ModifiersAt | src/parse.rs:252-254 | The three modifiers written in the fixed order read back as the three flags, and the probes stop right after them. |
| ParseProps.ModifiersInOrder | src/parse.rs:252-254 | `experimental deprecated optional ` sets all three flags and consumes exactly those 33 characters. |
| ParseProps.ModifiersOutOfOrder | src/parse.rs:392-401 | After `optional `, a following `deprecated ` is not read: only `optional` is set, and the probes consume 9 characters. |
| ParseLines.HeaderAt | src/parse.rs:214 | An indented line holding only a keyword reads as that keyword and stops after the line feed. |
| ParseLines.VariantLineAt | src/parse.rs:224-244 | An indented line holding only a token reads as that token and stops after the line feed. |
| ParseRules.VariantAt | src/parse.rs:224-244 | `variant` yields the description read before it and the token of its line, and stops after the line feed. |
| ParseLines.ParamLineAt | src/parse.rs:246-277 | An indented parameter line reads as its three flags, `Ty::new` of its type text and its name, and stops after the line feed. |
| ParseRules.ParamHeadAt | src/parse.rs:246-277 | The declaration of a parameter yields the description read before it, its three flags, `Ty::new` of its type text and its name. |
| ParseRules.ParamAt | src/parse.rs:246-290 | A parameter whose type is not a bare `enum` is its declaration alone, and `param` stops at the end of its line. |
| ParseRules.EnumParamAt | src/parse.rs:246-290 | A parameter declared with a bare `enum` yields the variants `vs` and stops at `e` exactly when `vs` is not empty and `variant` reads `vs` one after another from the next line and then fails at `e`. |
| ParseProps.EnumParamVariants | src/parse.rs:279-289 | A parameter whose head fails fails too. A non-`enum` parameter is its head alone. An `enum` parameter succeeds exactly when a variant line follows, and its variants are then the following variant lines, in order. |
| ParseRules.ParamBlockAt | src/parse.rs:306-310 | A `parameters` or `returns` block yields `ps` and stops at `e` exactly when `ps` is not empty and `param` reads `ps` one after another from the line after the header and then fails at `e`. |
| ParseRules.EnumItemAt | src/parse.rs:211-216 | An `enum` block makes `item` yield the variants `vs` exactly when `vs` is not empty and `variant` reads them one after another from the line after the header. |
| ParseRules.PropertiesItemAt | src/parse.rs:211-222 | A `properties` block makes `item` yield the parameters `ps` exactly when `ps` is not empty and `param` reads them one after another from the line after the header. |
| ParseLines.TypeHeadAt | src/parse.rs:146-158 | An indented `type <id> extends <ty>` line with its flags reads as the flags, the id and `Ty::new` of the base type text, and stops after the line feed. |
| ParseRules.TypeAt | src/parse.rs:142-180 | `type_` yields the description before it, the flags, id and base type of its head line and the optional item after it, and never sets `optional`. |
| ParseRules.RedirectAt | src/parse.rs:370-390 | `redirect` yields the description before it and the target of its indented `redirect <domain>` line, and stops after the line feed. |
| ParseLines.DeclHeadAt | src/parse.rs:296-304 | An indented `command` or `event` head line reads as its two flags and the name running to the line feed, and stops after the line feed. |
| ParseRules.CommandAt | src/parse.rs:292-334 | `command` yields the description before it, the flags and name of its head line, the optional redirect, and the `parameters` and `returns` blocks in that order, a missing block giving no parameters. |
| ParseRules.EventAt | src/parse.rs:336-368 | `event` yields the description before it, the flags and name of its head line, and its optional `parameters` block, a missing block giving no parameters. |
| ParseRules.BlankLinesAt | src/parse.rs:105-107 | `empty_lines` stops at the first character after a run of line feeds, and a declaration after blank lines is the declaration read there. |
| ParseLines.DomainHeadAt | src/parse.rs:96-103 | A `domain` head line at the start of a line reads as its two flags and the name running to the line feed, and stops after the line feed. |
| ParseRules.DomainAt | src/parse.rs:92-127 | `domain` yields its description, flags, name and the lists `deps`, `types`, `cmds`, `evts`, stopping at `e`, exactly when each list is the chain of its rule, starting where the previous list stopped, and the last one ends at `e`. |
| ParseRules.NothingAtEnd | src/parse.rs:104-107 | At the end of the text no dependency, type, command, event or domain is read, so every list of a domain is empty there. |
| ParseRules.ProtocolAt | src/parse.rs:22-36 | `protocol` yields its description, the two version numbers written in its version block and the domains `ds`, stopping at `e`, exactly when `ds` is not empty and is the chain of domains after the block. |
| Parse.Parse | src/parse.rs:18-20 | `parse` returns the document and the unparsed text after it, a suffix of the input, and the document holds at least one domain. |
| ParseExamples.DependsOnShape | src/parse.rs:579-581 | The test line `  depends on DOM` is a `depends on` line with a two-space indent. |
| ParseExamples.DependsOnExample | src/parse.rs:579-581 | `depends_on` reads the test line as `DOM` and leaves nothing. |
| ParseExamples.DomainShape | src/parse.rs:559-576 | The test line `experimental domain Accessibility` is an experimental domain head line. |
| ParseExamples.DomainLineAlone | src/parse.rs:92-127 | A text that is only an experimental domain head line reads as a domain with that name, no description and no children, and nothing is left. |
| ParseExamples.DomainExample | src/parse.rs:559-576 | `domain` reads the test line as the experimental domain `Accessibility` with no description and no children, and leaves nothing. |
| ParseExamples.RedirectShape | src/parse.rs:887-903 | The test text is a comment line and a `redirect Emulation` line, both indented by four spaces. |
| ParseExamples.RedirectCommentClean | src/parse.rs:887-903 | The test comment is one line with no whitespace at either end. |
| ParseExamples.RedirectWithComment | src/parse.rs:370-390 | Under an indented comment line, a `redirect Emulation` line reads as a redirect whose description is the trimmed comment, and nothing is left. |
| ParseExamples.RedirectExample | src/parse.rs:887-903 | `redirect` reads the test text as a redirect to `Emulation` whose description is the test comment, and leaves nothing. |
| VersionDemo.MajorLine | src/parse.rs:70-76 | The `major 1` line of the test's version block reads as 1. |
| VersionDemo.MinorLine | src/parse.rs:77-83 | The `minor 3` line of the test's version block reads as 3. |
| VersionDemo.VersionExample | src/parse.rs:545-555 | `"version\n  major 1\n  minor 3\n"` reads as (1, 3) and leaves nothing behind. |
| VersionDemo.NoDigitsFails | src/parse.rs:74 | A `major` line with an empty digit run fails, even though a line feed follows it. |
| Display.ThroughAppend | src/display.rs:9-14 | Writing fragments `a` and then `b` through any writer sends on exactly what writing `a + b` does. |
| Display.IdentMapShape | src/display.rs:9-14 | One `Ident` layer sends on `INDENT` before every fragment. The fragments themselves are unchanged, in order. |
| Display.Sink.constructor | src/display.rs:40 | A fresh base formatter has received no fragments. |
| Display.WriteStr | src/display.rs:9-14 | `write_str` appends what the writer chain sends on for the fragment: the fragment itself at the base, and `INDENT` then the fragment through each `Ident` layer. |
| Display.Write | src/display.rs:177-189 | A `write!` with fixed pieces appends those fragments, in order, through the writer chain. |
| Display.WriteDescription | src/display.rs:16-22 | `write_description` appends `# ` and each comment, in order, with no line feed. |
| Display.WriteParamLine | src/display.rs:31-32 | A parameter appends its description, its `Display` and a line feed. |
| Display.WriteVariantLine | src/display.rs:149-150 | A variant line appends its description, its name and a line feed. |
| Display.WriteHead | src/display.rs:98-112 | A declaration appends its description and then its head line. |
| Display.WriteParamLines | src/display.rs:30-33 | Appends the parameter lines in stored order. |
| Display.WriteParams | src/display.rs:24-37 | `write_params` appends nothing for an empty list. Otherwise it appends the header line and then the parameter lines inside one `Ident` layer. |
| Display.WriteVariantLines | src/display.rs:148-151 | Appends the variant lines in stored order. |
| Display.WriteItem | src/display.rs:140-167 | An item appends `enum` or `properties` and then its lines, in stored order, inside one `Ident` layer. |
| Display.WriteTypeLine | src/display.rs:82-84 | Appends a type and a line feed. |
| Display.WriteItemLine | src/display.rs:116-118 | Appends a type's item and a line feed inside one `Ident` layer, or nothing when the type has no item. |
| Display.WriteType | src/display.rs:96-122 | A type appends its description, then its head line without a `type` keyword, then its item. |
| Display.WriteCommandLine | src/display.rs:85-87 | Appends a command and a line feed. |
| Display.WriteCommand | src/display.rs:193-219 | A command appends its description and head line, then its body inside one `Ident` layer. |
| Display.WriteCommandBody | src/display.rs:208-216 | A command body appends its redirect line when present, then its parameters, then its returns. |
| Display.WriteEventLine | src/display.rs:88-90 | Appends an event and a line feed. |
| Display.WriteEvent | src/display.rs:221-238 | An event appends its description and head line, then its parameters with no `Ident` layer of their own. |
| Display.WriteDependencies | src/display.rs:79-81 | Appends each dependency as a bare name on its own line, in stored order. |
| Display.WriteTypes | src/display.rs:82-84 | Appends the types in stored order. |
| Display.WriteCommands | src/display.rs:85-87 | Appends the commands in stored order. |
| Display.WriteEvents | src/display.rs:88-90 | Appends the events in stored order. |
| Display.WriteDomainLine | src/display.rs:53-55 | Appends a domain and a line feed. |
| Display.WriteDomain | src/display.rs:61-94 | A domain appends its description and head line, then its body inside one `Ident` layer. |
| Display.WriteDomainBody | src/display.rs:77-90 | A domain body appends its dependencies, types, commands and events, in that order. |
| Display.WriteDomains | src/display.rs:53-55 | Appends the domains in stored order. |
| Display.WriteProtocol | src/display.rs:39-59 | A protocol appends its description, the version block around its two numbers, and its domains. |
| Display.ToText | src/display.rs:39-59 | `to_string` of a protocol is the text of the fragments its `Display` sends to the base formatter. |
| DisplayProps.TyTextNewTy | src/display.rs:124-138 | The text of `Ty::new(s, b)` is `s`, after `array of ` when `b` is set. |
| DisplayProps.TyRoundTrip | src/parse.rs:182-190 | When the text of `Ty::new(s, b)` is followed by whitespace or the end, `ty` reads it back as the same type and stops right after it. For an unflagged token this needs the text not to start with `array of `. |
| DisplayProps.ParamTextShape | src/display.rs:175-191 | A parameter writes `experimental `, `deprecated ` and `optional `, each only when set and always in that order, then its type, a space and its name. |
| DisplayProps.ThroughGrows | src/display.rs:9-14 | Writing through any writer sends on at least as many fragments as were written. |
| DisplayProps.ParamsDocEmpty | src/display.rs:24-37 | `write_params` writes nothing, not even its header, exactly when the list is empty. |
| DisplayProps.RedirectAndVariantText | src/display.rs:240-244 | A redirect writes `redirect ` and its target, whatever its description. A variant writes its name alone. |
| DisplayProps.IdentDoubles | src/display.rs:9-14 | As written, a fragment sent through `d` nested `Ident` layers arrives after 2^d - 1 indent units. |
| DisplayProps.ThroughIdentOne | src/display.rs:9-14 | An `Ident` layer makes a fragment into two writes to its inner writer: `INDENT`, then the fragment. |
| DisplayProps.IdentNestingCounterexample | src/display.rs:9-14 | Two nested `Ident` layers turn `x` into `"      x"`, three units, not the two units intended. |
| DisplayProps.PadAppend | src/display.rs:9-14 | The intended line-start indenter gives the same output however the text is split into writes. |
| DisplayProps.PadFragsConcat | src/display.rs:9-14 | The fragments the intended indenter sends on make up the indented text. |
| DisplayProps.PadNestedLine | src/display.rs:9-14 | With the intended indenter, each nested layer adds exactly one `INDENT` to a line. |
| DisplayProps.DescriptionCounterexample | src/display.rs:16-22 | As written, the description `["a", "b"]` is written as `# a# b`, on one line. |
| DisplayProps.CommentRoundTrip | src/parse.rs:54-64 | The intended comment line `# ` + comment + line feed reads back as the comment, for any trimmed one-line comment, wherever it stands. |
| DisplayProps.DescriptionRoundTrip | src/parse.rs:50-52 | The intended description text reads back as the same comments, in order, when no further comment follows. |
| Ser.SerializeUsize | src/ser.rs:8-13 | A number is written as a JSON string, not a JSON number. The string is canonical decimal digits whose value is the number. |
| Ser.UsizeRoundTrip | src/ser.rs:8-13 | Every number reads back from its string. The only string that reads back as `n` is `n`'s own. |
| Ser.Join | src/ser.rs:19 | `join(" ")` of no lines is `""`, and of one line is that line. |
| Ser.SerializeDescription | src/ser.rs:15-20 | A description is written as one JSON string, its lines joined by single spaces. |
| Ser.SplitJoin | src/ser.rs:15-20 | When no line holds a space, splitting the joined string at spaces gives the lines back. |
| Ser.DescriptionJoinLossy | src/ser.rs:15-20 | Joining loses the line structure: `["a b"]` and `["a", "b"]` are written the same. |
| Ser.VariantNames | src/ser.rs:28-30 | The loop writes one string per variant: its name, in order. |
| Ser.SerializeEnum | src/ser.rs:22-33 | `serialize_enum` writes an array of the variant names, in order, as long as the variant list. |
| Ser.VariantsOf | src/ser.rs:22-33 | An array of strings reads back as `Variant::new` of each name, in order. Any other array fails. |
| Ser.EnumRoundTrip | src/ser.rs:22-33 | A written variant list reads back as the variants without their descriptions, and exactly when none had a description it reads back unchanged. |
| Ser.SerializeRedirect | src/ser.rs:35-44 | A redirect is written as null when absent and as its target name when present. |
| Ser.RedirectRoundTrip | src/ser.rs:35-44 | A written redirect reads back as present exactly when it was present, with its target and no description. |
| Ser.IsFalse | src/ser.rs:46-48 | `is_false(v)` holds exactly when `v` is false. |
| Ser.TySchema | src/ser.rs:62-109 | A type becomes a schema object of one or two entries. It starts with `$ref` exactly for a reference. It has two entries exactly for an enum or an array. |
| Ser.SchemaRoundTrip | src/ser.rs:62-109 | A written schema, with the `enum` list of names, reads back as the same type, except that enum variants lose their descriptions. |
| Ser.ResolvedSchemaRoundTrip | src/ser.rs:62-109 | Every type `Ty::new` resolves reads back unchanged from its schema. Distinct (token, flag) pairs give distinct schemas. |

## Left out

- The command-line example program (`parser.rs`) is left out: it is file reading, argument parsing, logging and error printing.
- `Protocol::to_json` and `to_json_pretty` are left out: they are thin wrappers over `serde_json`.
- The serde machinery is left out. So are the JSON byte layout (escaping, whitespace) and the attachment of the helpers to struct fields, which the source never declares. JSON is kept abstract.
- nom error kinds, error positions and `Incomplete` are left out. Every combinator used is a `complete` variant, and all failures are one `None`.
- `trace!` logging and Rust lifetimes are left out. Borrowed `&str` slices of the input are modelled as owned `seq<char>` values.
- The exact points where `core::fmt` splits a `write!` into `write_str` calls are fixed by a stated rule: one fragment per non-empty literal piece and one per argument.
- The parsed `Version { major, minor }` struct is stored as the `(usize, usize)` pair that the document model declares. The domain's name field follows the model's `name`.
- The parser never sets `Type.optional`, so the model's parser always yields `false` for it, while the renderer still honours the field.
- `Ty::new` is defined twice with the same body (in `src/lib.rs` and `src/parse.rs`). It is modelled once, as `Pdl.NewTy`.
- A full parse-after-display round trip is not stated, because it does not hold for this code. Descriptions are written without line feeds, dependencies are written as bare names without `depends on`, the type head line has no `type` keyword, and the version block is indented. The round trip is proved piece by piece instead: `DisplayProps.TyRoundTrip` for type tokens, and `DisplayProps.CommentRoundTrip` and `DisplayProps.DescriptionRoundTrip` for the intended comment lines.
- The parser's tests for the full example protocol, `type_`, `enum`, `item`, `command` and `event` are not reproduced as concrete texts. The rules they exercise are stated over any text by the `ParseRules` lemmas. The version block, `depends_on`, `domain` and `redirect` tests are reproduced, in `VersionDemo` and `ParseExamples`.
- The rule lemmas of `ParseRules` take what `description` read before the rule as a hypothesis. What `description` reads is stated on its own by `ParseLines.CommentAt`, `ParseLines.DescriptionIsChain` and `DisplayProps.DescriptionRoundTrip`.
- ParseRules.TypeAt: takes the result of the optional item after the head line as a hypothesis. What `item` reads there is stated by `ParseRules.EnumItemAt` and `ParseRules.PropertiesItemAt`.
- ParseRules.CommandAt: takes the results of the optional redirect and of the optional `parameters` and `returns` blocks as hypotheses. What each one reads is stated by `ParseRules.RedirectAt` and `ParseRules.ParamBlockAt`.
- ParseRules.EventAt: takes the result of the optional `parameters` block as a hypothesis. What it reads is stated by `ParseRules.ParamBlockAt`.
- ParseRules.ProtocolAt: takes the end of the blank lines after the description as a hypothesis. `ParseRules.BlankLinesAt` gives that end from the text.
- ParseRules.ParamAt: stated for a type token other than `experimental`, `deprecated` and `optional`. The same holds for `ParseRules.ParamHeadAt` and `ParseLines.ParamLineAt`. A type token spelled like a modifier followed by a space is read as a modifier by the source, and that case is not stated.
- Parse.Parse: its own contract states only that the rest is a suffix of the input and that there is at least one domain. What it reads is `ParseRules.ProtocolAt` at position 0.

## Findings

| source | as written | input that shows it | evidently intended | confidence | as-written member | corrected member |
|---|---|---|---|---|---|---|
| src/display.rs:9-14 | `Ident::write_str` writes `INDENT` and then `s` as two separate writes to the inner writer. Each inner `Ident` layer then indents both writes, so `d` nested layers give 2^d - 1 indent units, and every fragment is indented, not every line. | The fragment `"x"` through two nested layers (the `enum` line of a type's item inside a domain) arrives as `"      x"`, three units. | Each nesting level adds one `INDENT`, at the start of each line. | not executed | DisplayProps.IdentNestingCounterexample | DisplayProps.PadNestedLine |
| src/display.rs:16-22 | `write_description` uses `write!`, so no line feed follows a comment. | The description `["a", "b"]` is written as `# a# b`, on one line that the head line written next also joins, so the `comment` rule cannot read the two comments back. | `writeln!`, one `# comment` line per comment, which the `comment` rule reads back. | not executed | DisplayProps.DescriptionCounterexample | DisplayProps.DescriptionRoundTrip |
