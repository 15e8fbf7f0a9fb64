/** The structs the repository's tests derive `UserData` for, and a few
    small structs at the edges of the derive, expanded under every
    combination of the two corrections. */
module Scenarios {
  import opened Syntax
  import opened Entries
  import opened FieldOptions
  import opened StructOptions
  import opened Dispatch
  import opened Expansion

  /** The names the tests use are not reserved words. */
  lemma TestNamesAdmitted()
    ensures !Reserved("read") && !Reserved("rename")
  {
    forall i | 0 <= i < KeywordCount ensures Keyword(i) != "read" && Keyword(i) != "rename" {
    }
  }

  function Helper(args: AttrArgs): Attr {
    Attr(HelperName, args)
  }

  /** `#[userdata]`, `#[userdata(read)]` and `#[userdata(rename = "hello", read)]`. */
  const Tester: Struct := Struct([], [
    Field(Some("field"), [Helper(Bare)]),
    Field(Some("read_only"), [Helper(Group([Ident("read")]))]),
    Field(Some("hellont"), [Helper(Group([Ident("rename"), Eq, StrLit("hello"), Comma, Ident("read")]))])
  ])

  /** `read` alone: readable, not writable. */
  lemma ReadOnlyOptions(build: Build)
    ensures FieldAttrInfo(Group([Ident("read")]), build) == Ok(FieldInfo(true, false, None))
  {
    TestNamesAdmitted();
  }

  /** `rename = "<name>", read`: readable under the new name, not writable. */
  lemma RenamedReadOptions(name: string, build: Build)
    ensures FieldAttrInfo(Group([Ident("rename"), Eq, StrLit(name), Comma, Ident("read")]), build)
         == Ok(FieldInfo(true, false, Some(name)))
  {
    TestNamesAdmitted();
    var toks := [Ident("rename"), Eq, StrLit(name), Comma, Ident("read")];
    var es := [KeyValue("rename", name), Flag("read")];
    assert ParseEntry(toks, 0, build) == Ok(Parsed(es[0], 3));
    assert ParseEntry(toks, 4, build) == Ok(Parsed(es[1], 5));
    assert ParseEntries(toks, 4, build) == Ok(Parsed([es[1]], 5));
    assert [es[0]] + [es[1]] == es;
    assert ParseEntries(toks, 0, build) == Ok(Parsed(es, 5));
    assert FoldFieldFrom(es, 1, FieldInfo(false, false, Some(name))) == Ok(FieldInfo(true, false, Some(name)));
  }

  /** All three fields are readable, the renamed one as `hello`; only the
      bare one is writable. */
  lemma TesterExpansion(build: Build, pathOk: string -> bool)
    ensures Expand(Tester, build, pathOk)
         == Impl(DefaultCrateRoot,
                 [Arm(Str("field"), 0), Arm(Str("read_only"), 1), Arm(Str("hello"), 2)],
                 [Arm(Str("field"), 0)])
  {
    TesterInfos(build);
  }

  /** The options collected for the tester struct, by field index. */
  lemma TesterInfos(build: Build)
    ensures CollectInfos(Tester.fields, build)
         == Ok(map[0 := DefaultInfo, 1 := FieldInfo(true, false, None), 2 := FieldInfo(true, false, Some("hello"))])
  {
    ReadOnlyOptions(build);
    RenamedReadOptions("hello", build);
  }

  /** Writing the read-only field, or reading the renamed field by its
      original name, falls through to the unknown-key error. */
  lemma TesterRefusals(build: Build, pathOk: string -> bool)
    ensures var out := Expand(Tester, build, pathOk);
      out.Impl?
      && Lookup(out.writeArms, Str("read_only")) == UnknownKey(Str("read_only"))
      && Lookup(out.readArms, Str("hellont")) == UnknownKey(Str("hellont"))
      && Lookup(out.readArms, Str("hello")) == Hit(2)
  {
    TesterExpansion(build, pathOk);
  }

  /** The outer and inner structs of the nested-access test: each exposes its
      one field for reading and writing under its name. */
  lemma NestedExpansion(build: Build, pathOk: string -> bool)
    ensures Expand(Struct([], [Field(Some("bar"), [Helper(Bare)])]), build, pathOk)
         == Impl(DefaultCrateRoot, [Arm(Str("bar"), 0)], [Arm(Str("bar"), 0)])
    ensures Expand(Struct([], [Field(Some("value"), [Helper(Bare)])]), build, pathOk)
         == Impl(DefaultCrateRoot, [Arm(Str("value"), 0)], [Arm(Str("value"), 0)])
  {
  }

  /** A struct whose fields carry no helper attribute. */
  const Unannotated: Struct := Struct([], [Field(Some("field1"), []), Field(Some("field2"), [])])

  /** Without the skipping correction the first field's missing options
      panic the derive; with it the impl exposes nothing. The reserved-word
      correction plays no part. */
  lemma UnannotatedExpansion(build: Build, pathOk: string -> bool)
    ensures Expand(Unannotated, build, pathOk)
         == if build.unannotatedSkipped then Impl(DefaultCrateRoot, [], []) else Panic(0, MissingInfo)
  {
  }

  /** A struct with two unannotated fields before an annotated one. */
  const Partial: Struct := Struct([], [
    Field(Some("reference"), []),
    Field(Some("displayer"), []),
    Field(Some("accessible_field"), [Helper(Bare)])
  ])

  lemma PartialExpansion(build: Build, pathOk: string -> bool)
    ensures Expand(Partial, build, pathOk)
         == if build.unannotatedSkipped
            then Impl(DefaultCrateRoot, [Arm(Str("accessible_field"), 2)], [Arm(Str("accessible_field"), 2)])
            else Panic(0, MissingInfo)
  {
  }

  /** Reserved words such as `use` and `do` are refused where an option name
      is expected, before anything after them is read, unless every
      identifier is admitted; then they are merely unknown options. */
  lemma ReservedFieldOptionRefused(build: Build)
    ensures FieldAttrInfo(Group([Ident("use")]), build)
         == if build.keywordsAdmitted then Err(UnknownOption("use")) else Err(GrammarError(0))
    ensures FieldAttrInfo(Group([Ident("do"), Comma, Ident("rename"), Eq, OtherLit]), build)
         == if build.keywordsAdmitted then Err(GrammarError(4)) else Err(GrammarError(0))
  {
    assert Keyword(43) == "use" && Keyword(9) == "do";
    TestNamesAdmitted();
  }

  /** The 2018 edition's keywords, such as `async` and `dyn`, pass the
      identifier parse under either build and fail only as unknown options or
      at a non-string value. */
  lemma EditionKeywordsAdmitted(build: Build)
    ensures FieldAttrInfo(Group([Ident("async")]), build) == Err(UnknownOption("async"))
    ensures FieldAttrInfo(Group([Ident("dyn"), Comma, Ident("rename"), Eq, OtherLit]), build) == Err(GrammarError(4))
  {
    EditionNamesAdmitted();
    TestNamesAdmitted();
  }

  /** `async` and `dyn` are not in the reserved-word table. */
  lemma EditionNamesAdmitted()
    ensures !Reserved("async") && !Reserved("dyn")
  {
    forall i | 0 <= i < KeywordCount ensures Keyword(i) != "async" && Keyword(i) != "dyn" {
    }
  }

  /** In `#[userdata(foo => "x")]` the `=` of `=>` is taken for the entry's
      `=`, so the entry fails where its value should be, at the `>`, before
      the unknown option is noticed. */
  lemma FatArrowIsGrammarError(build: Build)
    ensures FieldAttrInfo(Group([Ident("foo"), Eq, Other, StrLit("x")]), build) == Err(GrammarError(2))
  {
    forall i | 0 <= i < KeywordCount ensures Keyword(i) != "foo" {
    }
  }

  /** A struct without fields yields no impl at all. */
  lemma NoFieldsNoOutput(build: Build, pathOk: string -> bool)
    ensures Expand(Struct([], []), build, pathOk) == NoOutput
  {
  }

  /** Tuple-struct fields are exposed by their 1-based position. */
  lemma TupleFieldsByPosition(build: Build, pathOk: string -> bool)
    ensures Expand(Struct([], [Field(None, [Helper(Bare)]), Field(None, [Helper(Bare)])]), build, pathOk)
         == Impl(DefaultCrateRoot, [Arm(Int(1), 0), Arm(Int(2), 1)], [Arm(Int(1), 0), Arm(Int(2), 1)])
  {
  }

  /** A readable renamed tuple-struct field has no name to access: the
      derive panics on its read arm. */
  lemma RenamedTupleFieldPanics(build: Build, pathOk: string -> bool)
    ensures Expand(Struct([], [Field(None, [Helper(Group([Ident("rename"), Eq, StrLit("x"), Comma, Ident("read")]))])]),
                   build, pathOk)
         == Panic(0, UnnamedRead)
  {
    RenamedReadOptions("x", build);
  }

  /** A struct-level `crate = "::lua"` is refused without the reserved-word
      correction, and selects that crate root with it. The skipping
      correction plays no part. */
  lemma CrateOptionScenario(build: Build, pathOk: string -> bool)
    requires pathOk("::lua")
    ensures var s := Struct([Helper(Group([Ident("crate"), Eq, StrLit("::lua")]))], [Field(Some("x"), [Helper(Bare)])]);
      Expand(s, build, pathOk)
      == if build.keywordsAdmitted then Impl("::lua", [Arm(Str("x"), 0)], [Arm(Str("x"), 0)])
         else CompileError(GrammarError(0))
  {
    assert Keyword(8) == "crate";
    if build.keywordsAdmitted {
      CrateOptionHonouredWhenIntended("::lua", build, pathOk);
    }
  }
}
