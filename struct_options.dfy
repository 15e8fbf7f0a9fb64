/** Struct-wide options: `#[userdata(crate = "path")]` on the struct, which
    chooses the crate root that qualifies the generated references. */
module StructOptions {
  import opened Syntax
  import opened Entries

  /** The crate root used when nothing else is chosen. */
  const DefaultCrateRoot: string := "::rud_internal"

  predicate IsCrate(e: Entry) {
    e.KeyValue? && e.key == "crate"
  }

  /** The entries the struct scope accepts: `crate = "<path>"` with a value
      that parses as a path (`pathOk` stands for the path parser). */
  predicate StructEntryAllowed(e: Entry, pathOk: string -> bool) {
    IsCrate(e) && pathOk(e.value)
  }

  /** What a refused entry reports. */
  function EntryError(e: Entry): Error {
    match e
    case Flag(n) => UnknownOption(n)
    case KeyValue(k, v) => if k == "crate" then BadPath(v) else UnknownOption(k)
  }

  function StructStep(root: Option<string>, e: Entry, pathOk: string -> bool): Result<Option<string>> {
    match e
    case Flag(n) => Err(UnknownOption(n))
    case KeyValue(k, v) =>
      if k == "crate" then
        if pathOk(v) then Ok(Some(v)) else Err(BadPath(v))
      else Err(UnknownOption(k))
  }

  function FoldStructFrom(es: seq<Entry>, i: nat, root: Option<string>, pathOk: string -> bool)
    : Result<Option<string>>
    requires i <= |es|
    decreases |es| - i
  {
    if i == |es| then Ok(root)
    else
      match StructStep(root, es[i], pathOk)
      case Err(e) => Err(e)
      case Ok(root') => FoldStructFrom(es, i + 1, root', pathOk)
  }

  function FoldStructOptions(es: seq<Entry>, pathOk: string -> bool): Result<string> {
    match FoldStructFrom(es, 0, None, pathOk)
    case Err(e) => Err(e)
    case Ok(root) => Ok(if root.Some? then root.value else DefaultCrateRoot)
  }

  /** The fold as `StructwideOpts::parse` runs it, over a mutable optional root. */
  method FoldStructEntries(es: seq<Entry>, pathOk: string -> bool) returns (r: Result<string>)
    ensures r == FoldStructOptions(es, pathOk)
  {
    var root: Option<string> := None;
    for i := 0 to |es|
      invariant match FoldStructFrom(es, i, root, pathOk)
                case Err(e) => FoldStructOptions(es, pathOk) == Err(e)
                case Ok(x) => FoldStructOptions(es, pathOk) == Ok(if x.Some? then x.value else DefaultCrateRoot)
    {
      match es[i] {
        case Flag(n) =>
          return Err(UnknownOption(n));
        case KeyValue(k, v) =>
          if k == "crate" {
            if !pathOk(v) {
              return Err(BadPath(v));
            }
            root := Some(v);
          } else {
            return Err(UnknownOption(k));
          }
      }
    }
    r := Ok(if root.Some? then root.value else DefaultCrateRoot);
  }

  lemma {:induction false} FoldStructFromMeaning(es: seq<Entry>, i: nat, root: Option<string>, pathOk: string -> bool)
    requires i <= |es|
    decreases |es| - i
    ensures FoldStructFrom(es, i, root, pathOk).Ok?
        <==> forall j :: i <= j < |es| ==> StructEntryAllowed(es[j], pathOk)
    ensures FoldStructFrom(es, i, root, pathOk).Ok? ==>
      FoldStructFrom(es, i, root, pathOk).value
      == match LastWhere(es[i..], IsCrate)
         case None => root
         case Some(e) => Some(e.value)
    ensures FoldStructFrom(es, i, root, pathOk).Err? ==>
      exists j :: i <= j < |es| && !StructEntryAllowed(es[j], pathOk)
        && (forall k :: i <= k < j ==> StructEntryAllowed(es[k], pathOk))
        && FoldStructFrom(es, i, root, pathOk).error == EntryError(es[j])
  {
    if i < |es| {
      assert es[i..] == [es[i]] + es[i + 1..];
      LastWhereCons(es[i], es[i + 1..], IsCrate);
      match StructStep(root, es[i], pathOk) {
        case Err(e) =>
          assert !StructEntryAllowed(es[i], pathOk);
        case Ok(root') =>
          FoldStructFromMeaning(es, i + 1, root', pathOk);
      }
    }
  }

  /** The struct options succeed exactly when every entry is a `crate` entry
      whose value parses as a path; then the root is the value of the last
      entry (the default is left only for an empty list, which the entry
      parser never yields); otherwise the error is that of the first refused
      entry. */
  lemma StructOptionsMeaning(es: seq<Entry>, pathOk: string -> bool)
    ensures FoldStructOptions(es, pathOk).Ok?
        <==> forall j :: 0 <= j < |es| ==> StructEntryAllowed(es[j], pathOk)
    ensures FoldStructOptions(es, pathOk).Ok? ==>
      FoldStructOptions(es, pathOk).value
      == match LastWhere(es, IsCrate)
         case None => DefaultCrateRoot
         case Some(e) => e.value
    ensures FoldStructOptions(es, pathOk).Ok? && |es| >= 1 ==>
      LastWhere(es, IsCrate) == Some(es[|es| - 1])
    ensures FoldStructOptions(es, pathOk).Err? ==>
      exists j :: 0 <= j < |es| && !StructEntryAllowed(es[j], pathOk)
        && (forall k :: 0 <= k < j ==> StructEntryAllowed(es[k], pathOk))
        && FoldStructOptions(es, pathOk).error == EntryError(es[j])
  {
    FoldStructFromMeaning(es, 0, None, pathOk);
    assert es[0..] == es;
  }

  /** A later `crate` entry replaces an earlier one. */
  lemma LaterCrateWins(es: seq<Entry>, path: string, pathOk: string -> bool)
    requires FoldStructOptions(es, pathOk).Ok? && pathOk(path)
    ensures FoldStructOptions(es + [KeyValue("crate", path)], pathOk) == Ok(path)
  {
    var es' := es + [KeyValue("crate", path)];
    StructOptionsMeaning(es, pathOk);
    StructOptionsMeaning(es', pathOk);
    assert forall j :: 0 <= j < |es'| ==> StructEntryAllowed(es'[j], pathOk) by {
      forall j | 0 <= j < |es'| ensures StructEntryAllowed(es'[j], pathOk) {
        if j < |es| { assert es'[j] == es[j]; }
      }
    }
  }

  /** `StructwideOpts::parse` run by the attribute-argument parser. */
  function ParseStructArgs(toks: seq<Token>, build: Build, pathOk: string -> bool): Result<string> {
    match ParseEntries(toks, 0, build)
    case Err(e) => Err(e)
    case Ok(Parsed(es, n)) =>
      match FoldStructOptions(es, pathOk)
      case Err(e) => Err(e)
      case Ok(root) => if n < |toks| then Err(GrammarError(n)) else Ok(root)
  }

  /** The first helper attribute, as a linear search finds it. */
  function FirstHelper(attrs: seq<Attr>): (r: Option<Attr>)
    ensures r.None? <==> forall j :: 0 <= j < |attrs| ==> !IsHelper(attrs[j])
    ensures r.Some? ==> exists j :: 0 <= j < |attrs| && attrs[j] == r.value && IsHelper(attrs[j])
                          && forall k :: 0 <= k < j ==> !IsHelper(attrs[k])
  {
    if |attrs| == 0 then None
    else if IsHelper(attrs[0]) then Some(attrs[0])
    else
      var r := FirstHelper(attrs[1..]);
      assert forall j :: 1 <= j < |attrs| ==> attrs[j] == attrs[1..][j - 1];
      r
  }

  /** The struct's crate root: the default without a helper attribute,
      otherwise the options of the first helper attribute. */
  function CrateRoot(attrs: seq<Attr>, build: Build, pathOk: string -> bool): Result<string> {
    match FirstHelper(attrs)
    case None => Ok(DefaultCrateRoot)
    case Some(a) =>
      match a.args
      case Group(toks) => ParseStructArgs(toks, build, pathOk)
      case _ => Err(BadAttrForm)
  }

  /** The search for the struct's helper attribute and the parse of its
      options, as the expansion runs them. */
  method ResolveCrateRoot(attrs: seq<Attr>, build: Build, pathOk: string -> bool) returns (r: Result<string>)
    ensures r == CrateRoot(attrs, build, pathOk)
  {
    var j := 0;
    while j < |attrs| && !IsHelper(attrs[j])
      invariant 0 <= j <= |attrs|
      invariant forall k :: 0 <= k < j ==> !IsHelper(attrs[k])
    {
      j := j + 1;
    }
    if j == |attrs| {
      return Ok(DefaultCrateRoot);
    }
    assert FirstHelper(attrs) == Some(attrs[j]);
    match attrs[j].args {
      case Group(toks) =>
        var parsed := ParseEntries(toks, 0, build);
        if parsed.Err? {
          return Err(parsed.error);
        }
        r := FoldStructEntries(parsed.value.value, pathOk);
        if r.Ok? && parsed.value.next < |toks| {
          r := Err(GrammarError(parsed.value.next));
        }
      case _ =>
        r := Err(BadAttrForm);
    }
  }

  /** Without a helper attribute the root is the default; with one, a
      successful root is the default or a value that parses as a path. */
  lemma CrateRootCases(attrs: seq<Attr>, build: Build, pathOk: string -> bool)
    ensures (forall j :: 0 <= j < |attrs| ==> !IsHelper(attrs[j]))
            ==> CrateRoot(attrs, build, pathOk) == Ok(DefaultCrateRoot)
    ensures CrateRoot(attrs, build, pathOk).Ok? ==>
      CrateRoot(attrs, build, pathOk).value == DefaultCrateRoot
      || pathOk(CrateRoot(attrs, build, pathOk).value)
  {
    var a := FirstHelper(attrs);
    if a.Some? && a.value.args.Group? && CrateRoot(attrs, build, pathOk).Ok? {
      var Parsed(es, _) := ParseEntries(a.value.args.toks, 0, build).value;
      StructOptionsMeaning(es, pathOk);
    }
  }

  /** Only the first helper attribute on the struct is consulted. */
  lemma OnlyFirstHelperConsulted(pre: seq<Attr>, a: Attr, post: seq<Attr>, build: Build, pathOk: string -> bool)
    requires forall j :: 0 <= j < |pre| ==> !IsHelper(pre[j])
    requires IsHelper(a)
    ensures CrateRoot(pre + [a] + post, build, pathOk) == CrateRoot([a], build, pathOk)
  {
    var attrs := pre + [a] + post;
    assert attrs[|pre|] == a;
    assert forall k :: 0 <= k < |pre| ==> attrs[k] == pre[k];
    var j :| 0 <= j < |attrs| && attrs[j] == FirstHelper(attrs).value && IsHelper(attrs[j])
          && forall k :: 0 <= k < j ==> !IsHelper(attrs[k]);
    assert j == |pre|;
  }

  /** Without the reserved-word correction, no struct-level argument list is
      ever accepted: every entry must be a `crate` entry, but `crate` is a
      reserved word, which the identifier parser refuses. */
  lemma StructArgsAlwaysRefusedAsWritten(toks: seq<Token>, build: Build, pathOk: string -> bool)
    requires !build.keywordsAdmitted
    ensures ParseStructArgs(toks, build, pathOk).Err?
  {
    var parsed := ParseEntries(toks, 0, build);
    if parsed.Ok? {
      var Parsed(es, _) := parsed.value;
      ParsedSpells(toks, 0, build);
      assert Admits(build, EntryName(es[0]));
      assert Keyword(8) == "crate";
      assert !StructEntryAllowed(es[0], pathOk);
      StructOptionsMeaning(es, pathOk);
    }
  }

  /** Without the reserved-word correction, a struct expansion that gets past
      its options always uses the default crate root. */
  lemma CrateRootAlwaysDefaultAsWritten(attrs: seq<Attr>, build: Build, pathOk: string -> bool)
    requires !build.keywordsAdmitted
    requires CrateRoot(attrs, build, pathOk).Ok?
    ensures CrateRoot(attrs, build, pathOk).value == DefaultCrateRoot
  {
    var a := FirstHelper(attrs);
    if a.Some? && a.value.args.Group? {
      StructArgsAlwaysRefusedAsWritten(a.value.args.toks, build, pathOk);
    }
  }

  /** A struct argument list holding `=` followed by anything but a string
      literal is refused, wherever the `=` stands. */
  lemma NonStringStructValueRejected(toks: seq<Token>, build: Build, pathOk: string -> bool, q: nat)
    requires q < |toks| && toks[q] == Eq
    requires q + 1 == |toks| || !toks[q + 1].StrLit?
    ensures ParseStructArgs(toks, build, pathOk).Err?
  {
    NonStringValueNeverCompletes(toks, build, q);
  }

  /** The spelling of an admitted entry list yields the struct options of its
      entries; in particular, with every identifier admitted, `crate = "p"`
      selects `p` when it parses as a path. */
  lemma ParseStructArgsOfRender(es: seq<Entry>, build: Build, pathOk: string -> bool)
    requires |es| >= 1 && AllAdmitted(es, build)
    ensures ParseStructArgs(Render(es), build, pathOk) == FoldStructOptions(es, pathOk)
  {
    RenderRoundTrip(es, build);
  }

  lemma CrateOptionHonouredWhenIntended(path: string, build: Build, pathOk: string -> bool)
    requires pathOk(path) && build.keywordsAdmitted
    ensures ParseStructArgs([Ident("crate"), Eq, StrLit(path)], build, pathOk) == Ok(path)
  {
    var es := [KeyValue("crate", path)];
    ParseStructArgsOfRender(es, build, pathOk);
    StructOptionsMeaning(es, pathOk);
  }
}
