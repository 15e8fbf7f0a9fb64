# rud-proc-macro `UserData` derive, modelled in Dafny

`#[derive(UserData)]` turns a Rust struct into an rlua `UserData` impl. Scripts
can then read fields through the `Index` metamethod and write them through
`NewIndex`. The derive's behaviour is driven by attributes:

- A field is exposed by a helper attribute. `#[userdata]` makes it readable
  and writable. `#[userdata(read)]` makes it read-only. `#[userdata(rename = "name")]`
  changes its key. The arguments combine, for example `rename = "x", read`.
- A struct-wide `#[userdata(crate = "path")]` is meant to pick the crate
  root that qualifies the generated references. Without it, `::rud_internal`
  is used. As written, the struct-wide argument list is always refused,
  because `crate` is a reserved word the entry's identifier parse refuses
  (see Findings), so the root is always `::rud_internal`.

The expansion runs in stages:

1. It resolves the struct options.
2. A struct with no fields yields no output at all.
3. It collects each field's options in a map keyed by field index.
4. It emits one match arm per exposed field and direction, in field order.
   The key is the rename, else the field name, else the 1-based position of
   a tuple field.
5. Each match ends in an unknown-key fallback.

The project models this as values and algorithms. The modules follow the
source's parts:

- `Syntax`: tokens, attributes, fields, structs and errors.
- `Entries`: the `read` / `key = "value"` entry grammar and the
  comma-separated list around it.
- `FieldOptions`: `FieldInfo`, its default, and `FieldInfo::parse`.
- `StructOptions`: `StructwideOpts` and how the struct's helper attribute is
  found.
- `Dispatch`: the generated `match key { ... }` as an ordered list of arms
  with a fallback.
- `Expansion`: `impl_user_data` as a specification function `Expand` and as
  the loop-based method `ImplUserData` proved equal to it, with lemmas about
  the outcome, the arms and dispatch.
- `Scenarios`: the structs of the repository's tests and a few edge cases,
  each expanded to a concrete result.

The loops of the derive are modelled as methods. These are the options fold,
the search for the struct's helper attribute, the nested loops that fill the
options map, and the emission loop. Each method is proved equal to a
recursive specification function. Separate lemmas state what those functions
mean declaratively.

Where the code as written differs from what it evidently intends (see
Findings), the model takes a `Build` parameter made of two independent
switches, one per finding:

- `keywordsAdmitted` lets an entry start with a reserved word. When it is
  off, the entry's identifier parse refuses the words syn 1.x's identifier
  rule refuses: `_` and the strict and reserved keywords of the 2015
  edition, `crate`, `do` and `use` included. The 2018 edition's `async`,
  `await`, `dyn` and `try` are accepted.
- `unannotatedSkipped` gives a field without a helper attribute no arm. When
  it is off, the options lookup panics on that field.

`AsWritten` has both switches off and follows the code. `Intended` has both
on. Each lemma about a correction requires only its own switch, and the
scenario lemmas state their result for every combination.

## Model

| member | source | states |
|---|---|---|
| Syntax.Keyword | src/lib.rs:237 | The words syn 1.x's identifier parse refuses, by position: `_` and the 2015 edition's strict and reserved keywords. `Scenarios.ReservedFieldOptionRefused` and `Scenarios.EditionKeywordsAdmitted` state which words are in it. |
| Syntax.Reserved | src/lib.rs:237 | A name is reserved exactly when it is one of the words in the table. |
| Syntax.Admits | src/lib.rs:237 | The identifier parse accepts a name when it is not reserved, or always when the reserved-word correction is on. |
| Entries.ParseEntry | src/lib.rs:235-257 | An entry is an identifier, optionally followed by `=` and a literal. A successful parse ends inside the input. A failure is a grammar error at a position inside the input. |
| Entries.ParseEntries | src/lib.rs:206 | The comma-separated list is never empty. It stops at the first token after an entry that is not a comma. |
| Entries.ParseSpelled | src/lib.rs:235-257 | Tokens that spell admitted entries up to the end parse back to exactly those entries and consume every token. |
| Entries.ParsedSpells | src/lib.rs:235-257 | Conversely, whatever parses spells the entries it yields, and every entry name is an admitted identifier. |
| Entries.ParseWholeIff | src/lib.rs:235-257 | An argument list parses completely into `es` if and only if it spells `es` and every name in `es` is admitted. |
| Entries.RenderRoundTrip | src/lib.rs:235-257 | Round trip: parsing the canonical spelling of a non-empty admitted entry list gives the list back. |
| Entries.NonStringValueRejected | src/lib.rs:242-251 | At any position, after an admitted `key =`, anything but a string literal is refused with a grammar error at the value's position. |
| Entries.SpelledEqHasString | src/lib.rs:242-251 | In every spelling of an entry list, each `=` is followed by a string literal. |
| Entries.NonStringValueNeverCompletes | src/lib.rs:242-251 | A token list with `=` followed by anything but a string literal never parses to its end, wherever the `=` stands. |
| FieldOptions.NonStringFieldValueRejected | src/lib.rs:197-226 | A field argument list with `=` followed by anything but a string literal is refused, for every token list. |
| StructOptions.NonStringStructValueRejected | src/lib.rs:273-296 | A struct argument list with `=` followed by anything but a string literal is refused, for every token list. |
| FieldOptions.FoldFieldEntries | src/lib.rs:200-225 | The loop over entries, updating the options record in place, computes the specification fold and returns at the first refused entry. |
| FieldOptions.FoldFieldOptions | src/lib.rs:200-225 | The field-options fold over parsed entries, starting from neither readable nor writable and stopping at the first refused entry. `FieldOptionsMeaning` states what it yields. |
| FieldOptions.FieldOptionsMeaning | src/lib.rs:200-225 | The fold succeeds if and only if every entry is `read` or `rename = ...`. On success the field is readable if and only if some entry is `read`. It is never writable, and it is renamed by the last `rename`. On failure the error names the first refused entry. |
| FieldOptions.LaterRenameWins | src/lib.rs:216-219 | A later `rename` replaces any earlier one. |
| FieldOptions.RepeatedReadChangesNothing | src/lib.rs:209-211 | Repeating `read` does not change the result. |
| FieldOptions.ParseFieldArgs | src/lib.rs:197-226 | A field argument list: the entry list, then the fold, then a grammar error at the first unconsumed token. `ParseFieldArgsOfRender` and `NonStringFieldValueRejected` state its results. |
| FieldOptions.FieldAttrInfo | src/lib.rs:51-58 | The options of one field helper attribute: the default for the bare form, the parsed argument list for a group, an error otherwise. `ParseFieldAttr` is proved equal to it and `OnlyBareGrantsWrite` states what it grants. |
| FieldOptions.ParseFieldAttr | src/lib.rs:51-58 | A bare helper attribute gives the default options. An argument group is parsed and must be consumed entirely. Any other form is an error. |
| FieldOptions.ParseFieldArgsOfRender | src/lib.rs:197-226 | Parsing the spelling of admitted entries yields the fold of those entries. |
| FieldOptions.EmptyGroupRejected | src/lib.rs:51-58 | `#[userdata()]` is not the bare form: it is a grammar error at position 0. |
| FieldOptions.OnlyBareGrantsWrite | src/lib.rs:187-204 | An accepted field attribute grants write access if and only if it is bare. |
| FieldOptions.RenamedNeverWritable | src/lib.rs:187-204 | An accepted attribute that renames a field never makes it writable. |
| StructOptions.FoldStructEntries | src/lib.rs:273-296 | The loop over struct entries computes the specification fold. A flag, a key other than `crate`, or a path that does not parse stops it with that error. |
| StructOptions.FoldStructOptions | src/lib.rs:275-295 | The struct-options fold over parsed entries, ending in the last `crate` value or the default root. `StructOptionsMeaning` states what it yields. |
| StructOptions.ParseStructArgs | src/lib.rs:273-296 | A struct argument list: the entry list, then the fold, then a grammar error at the first unconsumed token. `StructArgsAlwaysRefusedAsWritten` and `ParseStructArgsOfRender` state its results. |
| StructOptions.StructOptionsMeaning | src/lib.rs:273-296 | Struct options succeed if and only if every entry is `crate = "<path>"` with a parsable path. The root is then the last entry's value, and the error otherwise is that of the first refused entry. |
| StructOptions.LaterCrateWins | src/lib.rs:283-286 | A later `crate` entry replaces an earlier one. |
| StructOptions.FirstHelper | src/lib.rs:28-31 | The search returns nothing if and only if no attribute is the helper. Otherwise it returns the first helper attribute. |
| StructOptions.CrateRoot | src/lib.rs:28-37 | The crate root: the default without a struct helper attribute, otherwise the options of the first one, whose bare form is refused. `CrateRootCases` and `OnlyFirstHelperConsulted` state its results. |
| StructOptions.ResolveCrateRoot | src/lib.rs:28-37 | The linear search plus option parse equals the specification: the default without a helper attribute, and the parsed options of the first helper attribute otherwise. |
| StructOptions.CrateRootCases | src/lib.rs:28-37 | Without a helper attribute the root is `::rud_internal`. An accepted root is either that default or a value that parses as a path. |
| StructOptions.OnlyFirstHelperConsulted | src/lib.rs:28-32 | Attributes after the first helper attribute never influence the crate root. |
| StructOptions.StructArgsAlwaysRefusedAsWritten | src/lib.rs:277-288 | Without the reserved-word correction, every struct-level argument list is refused, because its only key `crate` is a reserved word that the entry's identifier parse at line 237 refuses. |
| StructOptions.CrateRootAlwaysDefaultAsWritten | src/lib.rs:28-37 | Without the reserved-word correction, any accepted struct gets the default crate root. |
| StructOptions.ParseStructArgsOfRender | src/lib.rs:273-296 | Parsing the spelling of entries whose names are all admitted yields their struct options. |
| StructOptions.CrateOptionHonouredWhenIntended | src/lib.rs:283-286 | With every identifier admitted, `crate = "p"` selects `p` when it parses as a path. |
| Dispatch.Lookup | src/lib.rs:146-158 | Dispatch falls back to the unknown-key error carrying the key if and only if no arm has that key. Otherwise it reaches the field of the first arm with that key. |
| Dispatch.LookupLeastField | src/lib.rs:72-158 | On arms in field order, a key reaches field `i` if and only if `i` is the smallest field with an arm for that key. |
| Expansion.Expand | src/lib.rs:19-178 | The whole expansion as a function: struct options first, then the zero-field exit, then options collection, then emission. `ExpandOutcome`, `ImplArms` and `Reachability` state its results. |
| Expansion.CollectInfos | src/lib.rs:47-62 | The options map, built field by field and attribute by attribute, with the first error aborting. `CollectInfosMeaning` states what it holds. |
| Expansion.ExposedKey | src/lib.rs:78-87 | The key a field is exposed under: its rename, else its name, else the integer `idx + 1`. `PositionalKeyReachesField` and `RenamedFieldOnlyByNewName` state how dispatch uses it. |
| Expansion.EmitFrom | src/lib.rs:72-143 | The emission loop from a field index on, appending arms and stopping at the first panic. `EmitFromOrdered`, `EmitFromArms` and `EmitFromPanics` state what it yields. |
| Expansion.ImplUserData | src/lib.rs:19-178 | The staged expansion equals `Expand`. The stages are: struct options, the zero-field exit, the options map filled by nested loops with early error return, then arms appended field by field with the panics. |
| Expansion.CollectInfosMeaning | src/lib.rs:47-62 | Options collection succeeds if and only if every helper attribute of every field is accepted. The map then holds exactly the fields that have a helper attribute, with the options of their last one. A failure reports the first refused attribute. |
| Expansion.EmitFromOrdered | src/lib.rs:72-143 | Completed emission keeps each direction's arms in field declaration order. |
| Expansion.EmitFromArms | src/lib.rs:72-143 | Completed emission adds exactly one arm per later field whose options grant the direction, under the field's exposed key, and no other arm. |
| Expansion.EmitFromPanics | src/lib.rs:72-124 | Emission that panics does so at the first blocked field, with the matching site. |
| Expansion.ExpandOutcome | src/lib.rs:19-178 | The expansion yields exactly one of four outcomes. No output comes if and only if the options are accepted and there are no fields. A compile error comes if and only if a struct or field option is refused, and it is the first one. A panic comes at the first stuck field. Otherwise the impl comes, with the resolved crate root. |
| Expansion.ImplArms | src/lib.rs:72-143 | Each table's arms are in field order. A table holds `(k, i)` if and only if field `i` grants that direction and `k` is its exposed key. |
| Expansion.Reachability | src/lib.rs:89-158 | A key reaches field `i` if and only if `i` is exposed under that key in that direction and no earlier field is. So among duplicate keys the earlier field wins. |
| Expansion.UnknownKeyFallback | src/lib.rs:146-158 | A key gets the unknown-key error carrying that key if and only if no field is exposed under it in that direction. |
| Expansion.PositionalKeyReachesField | src/lib.rs:106-140 | A tuple field without rename is reached by the integer key `i + 1`. |
| Expansion.RenamedFieldOnlyByNewName | src/lib.rs:78-87 | A renamed field is reached only through its new name. |
| Expansion.WriteSideNeverPanics | src/lib.rs:117-124 | The unwrap of the field name on the write side never fails. |
| Expansion.AsWrittenEveryFieldNeedsOptions | src/lib.rs:72-74 | Without the skipping correction, a struct gets an impl only if every field has a helper attribute. |
| Expansion.IntendedSkipsUnannotatedFields | src/lib.rs:72-74 | With unannotated fields skipped, the options lookup never panics and such a field gets no arm. |
| Scenarios.TesterExpansion | tests/tests.rs:8-16 | The test struct reads `field`, `read_only` and `hello`, and writes only `field`. |
| Scenarios.TesterRefusals | tests/tests.rs:8-16 | Writing `read_only` and reading `hellont` hit the fallback. `hello` reaches the renamed field. |
| Scenarios.NestedExpansion | tests/tests.rs:26-35 | Both structs of the nested test expose their one field for reading and writing. |
| Scenarios.UnannotatedExpansion | tests/tests.rs:72-77 | A struct with unannotated fields panics on its first field without the skipping correction, and yields an empty impl with it, whatever the other switch. |
| Scenarios.PartialExpansion | tests/tests.rs:82-91 | The generics test struct's fields panic on the first field without the skipping correction. With it they expose only `accessible_field`, whatever the other switch. |
| Scenarios.ReservedFieldOptionRefused | src/lib.rs:237 | `#[userdata(use)]` and `#[userdata(do, rename = 1)]` fail at position 0 on the reserved word without the reserved-word correction. With it they fail later, as an unknown option or at the non-string value. |
| Scenarios.EditionKeywordsAdmitted | src/lib.rs:237 | `#[userdata(async)]` and `#[userdata(dyn, rename = 1)]` pass the identifier parse under either build, and fail as an unknown option or at the non-string value. |
| Scenarios.FatArrowIsGrammarError | src/lib.rs:237-241 | In `#[userdata(foo => "x")]` the `=` of `=>` is taken as the entry's `=`, so the attribute fails with a grammar error at the `>`, not as an unknown option. |
| Scenarios.NoFieldsNoOutput | src/lib.rs:42-46 | A struct without fields yields nothing. |
| Scenarios.TupleFieldsByPosition | src/lib.rs:106-140 | Tuple fields are keyed 1 and 2. |
| Scenarios.RenamedTupleFieldPanics | src/lib.rs:97-98 | A readable renamed tuple field panics the derive on its read arm. |
| Scenarios.CrateOptionScenario | src/lib.rs:277-288 | `crate = "::lua"` is refused at position 0 without the reserved-word correction, and selects `::lua` with it, whatever the other switch. |

## Left out

- Token streams, spans and generated code text are not modelled. The output is its structure: the crate root and the two ordered lists of arms. The `quote!` text around them, `to_compile_error` and error message texts are left out.
- Struct generics, lifetimes and where-clauses are not modelled. The impl header at src/lib.rs:162 names the struct by its bare identifier, so they are dropped from the generated impl; a generic struct therefore gets an impl that does not compile, which the model does not capture.
- Non-struct input (src/lib.rs:22) and a failing `syn::parse` (src/lib.rs:15) cannot be expressed: the model's input is always a parsed struct.
- Parsing a `crate` value as a `syn::Path` (src/lib.rs:285) is the parameter `pathOk`. Only its success or failure matters.
- An attribute's argument form is abstracted to bare, a delimited group (its inner tokens) or any other form. Parenthesis, bracket and brace groups are treated alike.
- The helper attribute is recognised by its path text `userdata` at both scopes. `is_ident` and the comparison with a parsed path are not distinguished.
- Token kinds are reduced to identifier, `=`, comma, string literal, other literal and other token. A string literal is represented by its value. Every `=` punct maps to `=`, including the first character of `==` and `=>`, because syn's peek and parse of a single `=` do not check its spacing; the rest of such a token maps to other token.
- The runtime side is left out, because it runs in rlua, not in the derive. This covers `ToLua`/`FromLua` conversion, the `clone` on read, byte-string key comparison, integer width of `LuaInteger`, and the `Arc<Mutex<_>>` behaviour exercised by the nested test. Keys are compared as Dafny strings and unbounded integers.
- Expansion.EmitFromArms: a tuple field's key is modelled as the intended integer `idx + 1`, not as the generated guard expression. `quote!` inserts `idx` as a `usize`-suffixed literal, so the guard `#idx + 1 as LuaInteger` mixes `usize` with `LuaInteger`; whether and how that expression compiles is not modelled.

## Findings

| source | as written | input that shows it | evidently intended | confidence | as-written member | corrected member |
|---|---|---|---|---|---|---|
| src/lib.rs:72-74 | Every field's options are looked up with `unwrap`, so a field without a helper attribute panics the derive. | `struct Foo { field1: i32, field2: i32 }` (the `empty` test); the `generics` test with `displayer: T` | Fields without a helper attribute are skipped. The test named `empty` derives for a struct with no annotated field, and the `generics` test annotates only `accessible_field`; both presume the others are left alone. The `generics` test also fails for another reason: the impl header at src/lib.rs:162 drops the struct's generics. | not executed; high | Expansion.AsWrittenEveryFieldNeedsOptions | Expansion.IntendedSkipsUnannotatedFields |
| src/lib.rs:237 | An entry starts with `Ident::parse`, which refuses reserved words. The struct scope accepts only the key `crate`, a reserved word, so every struct-level argument list is refused. | `#[userdata(crate = "::lua")]` on a struct | The key is read with an identifier rule that accepts reserved words, so that `crate = "path"` selects the root. | not executed; medium (rests on syn's identifier rule) | StructOptions.StructArgsAlwaysRefusedAsWritten | StructOptions.CrateOptionHonouredWhenIntended |
