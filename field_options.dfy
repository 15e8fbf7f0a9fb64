/** Per-field options: `#[userdata]`, `#[userdata(read)]`,
    `#[userdata(rename = "name")]` and combinations. */
module FieldOptions {
  import opened Syntax
  import opened Entries

  /** What a field exposes and under which name. */
  datatype FieldInfo = FieldInfo(read: bool, write: bool, rename: Option<string>)

  /** A bare `#[userdata]`: readable, writable, not renamed. */
  const DefaultInfo: FieldInfo := FieldInfo(true, true, None)

  /** Where folding starts when arguments are given: nothing is granted
      unless an entry names it. */
  const Unexposed: FieldInfo := FieldInfo(false, false, None)

  predicate IsRename(e: Entry) {
    e.KeyValue? && e.key == "rename"
  }

  /** The entries the field scope accepts. */
  predicate FieldEntryAllowed(e: Entry) {
    e == Flag("read") || IsRename(e)
  }

  /** One step of the fold: apply an entry, or refuse it by name. */
  function FieldStep(info: FieldInfo, e: Entry): Result<FieldInfo> {
    match e
    case Flag(n) => if n == "read" then Ok(info.(read := true)) else Err(UnknownOption(n))
    case KeyValue(k, v) => if k == "rename" then Ok(info.(rename := Some(v))) else Err(UnknownOption(k))
  }

  /** The fold over entries `i..`, starting from `info`, stopping at the
      first refused entry. */
  function FoldFieldFrom(es: seq<Entry>, i: nat, info: FieldInfo): Result<FieldInfo>
    requires i <= |es|
    decreases |es| - i
  {
    if i == |es| then Ok(info)
    else
      match FieldStep(info, es[i])
      case Err(e) => Err(e)
      case Ok(info') => FoldFieldFrom(es, i + 1, info')
  }

  function FoldFieldOptions(es: seq<Entry>): Result<FieldInfo> {
    FoldFieldFrom(es, 0, Unexposed)
  }

  /** The fold as the parser runs it: a mutable record updated entry by entry,
      with an early return on the first refused entry. */
  method FoldFieldEntries(es: seq<Entry>) returns (r: Result<FieldInfo>)
    ensures r == FoldFieldOptions(es)
  {
    var info := Unexposed;
    for i := 0 to |es|
      invariant FoldFieldFrom(es, i, info) == FoldFieldOptions(es)
    {
      match es[i] {
        case Flag(n) =>
          if n == "read" {
            info := info.(read := true);
          } else {
            return Err(UnknownOption(n));
          }
        case KeyValue(k, v) =>
          if k == "rename" {
            info := info.(rename := Some(v));
          } else {
            return Err(UnknownOption(k));
          }
      }
    }
    return Ok(info);
  }

  /** The value of the last `rename` entry, if any. */
  function LastRename(es: seq<Entry>): Option<string> {
    match LastWhere(es, IsRename)
    case None => None
    case Some(e) => Some(e.value)
  }

  /** The fold from `i` succeeds exactly when every entry from `i` on is accepted. */
  lemma {:induction false} FoldFieldFromOk(es: seq<Entry>, i: nat, info: FieldInfo)
    requires i <= |es|
    decreases |es| - i
    ensures FoldFieldFrom(es, i, info).Ok? <==> forall j :: i <= j < |es| ==> FieldEntryAllowed(es[j])
  {
    if i < |es| {
      match FieldStep(info, es[i]) {
        case Err(e) =>
        case Ok(info') => FoldFieldFromOk(es, i + 1, info');
      }
    }
  }

  /** A successful fold from `i` adds `read` if some later entry is `read`,
      and takes the last later `rename`, if any. */
  lemma {:induction false} FoldFieldFromValue(es: seq<Entry>, i: nat, info: FieldInfo)
    requires i <= |es|
    requires FoldFieldFrom(es, i, info).Ok?
    decreases |es| - i
    ensures FoldFieldFrom(es, i, info).value
         == FieldInfo(info.read || Flag("read") in es[i..], info.write,
                      if LastRename(es[i..]).Some? then LastRename(es[i..]) else info.rename)
  {
    if i < |es| {
      assert es[i..] == [es[i]] + es[i + 1..];
      LastWhereCons(es[i], es[i + 1..], IsRename);
      FoldFieldFromValue(es, i + 1, FieldStep(info, es[i]).value);
    }
  }

  /** A failed fold from `i` names the first refused entry from `i` on. */
  lemma {:induction false} FoldFieldFromErr(es: seq<Entry>, i: nat, info: FieldInfo)
    requires i <= |es|
    requires FoldFieldFrom(es, i, info).Err?
    decreases |es| - i
    ensures exists j :: (i <= j < |es| && !FieldEntryAllowed(es[j])
                         && (forall k :: i <= k < j ==> FieldEntryAllowed(es[k]))
                         && FoldFieldFrom(es, i, info).error == UnknownOption(EntryName(es[j])))
  {
    match FieldStep(info, es[i]) {
      case Err(e) =>
        assert !FieldEntryAllowed(es[i]);
      case Ok(info') =>
        FoldFieldFromErr(es, i + 1, info');
    }
  }

  /** The fold from the start of the entries: it succeeds exactly when every
      entry is `read` or `rename = ...`; then the field is readable exactly
      when some entry is `read`, never writable, and renamed by the last
      `rename`; otherwise the error names the first refused entry. */
  lemma FieldOptionsMeaning(es: seq<Entry>)
    ensures FoldFieldOptions(es).Ok? <==> forall j :: 0 <= j < |es| ==> FieldEntryAllowed(es[j])
    ensures FoldFieldOptions(es).Ok? ==>
      FoldFieldOptions(es).value == FieldInfo(Flag("read") in es, false, LastRename(es))
    ensures FoldFieldOptions(es).Err? ==>
      exists j :: 0 <= j < |es| && !FieldEntryAllowed(es[j])
        && (forall k :: 0 <= k < j ==> FieldEntryAllowed(es[k]))
        && FoldFieldOptions(es).error == UnknownOption(EntryName(es[j]))
  {
    assert es[0..] == es;
    FoldFieldFromOk(es, 0, Unexposed);
    if FoldFieldOptions(es).Ok? {
      FoldFieldFromValue(es, 0, Unexposed);
    } else {
      FoldFieldFromErr(es, 0, Unexposed);
    }
  }

  lemma {:induction false} FoldFieldFromAppend(es: seq<Entry>, x: Entry, i: nat, info: FieldInfo)
    requires i <= |es|
    decreases |es| - i
    ensures FoldFieldFrom(es + [x], i, info)
         == match FoldFieldFrom(es, i, info)
            case Err(e) => Err(e)
            case Ok(v) => FieldStep(v, x)
  {
    var t := es + [x];
    if i == |es| {
      assert t[i] == x;
    } else {
      assert t[i] == es[i];
      match FieldStep(info, es[i]) {
        case Err(e) =>
        case Ok(info') => FoldFieldFromAppend(es, x, i + 1, info');
      }
    }
  }

  /** A `rename` entry after well-formed entries decides the name, whatever
      earlier entries said. */
  lemma LaterRenameWins(es: seq<Entry>, name: string)
    requires FoldFieldOptions(es).Ok?
    ensures FoldFieldOptions(es + [KeyValue("rename", name)])
         == Ok(FoldFieldOptions(es).value.(rename := Some(name)))
  {
    FoldFieldFromAppend(es, KeyValue("rename", name), 0, Unexposed);
  }

  /** Repeating `read` changes nothing, whether or not the list is well formed. */
  lemma RepeatedReadChangesNothing(es: seq<Entry>)
    requires Flag("read") in es
    ensures FoldFieldOptions(es + [Flag("read")]) == FoldFieldOptions(es)
  {
    FoldFieldFromAppend(es, Flag("read"), 0, Unexposed);
    FieldOptionsMeaning(es);
  }

  /** `FieldInfo::parse` run on a token list by the attribute-argument parser:
      entries, then the fold, then every token must have been consumed. */
  function ParseFieldArgs(toks: seq<Token>, build: Build): Result<FieldInfo> {
    match ParseEntries(toks, 0, build)
    case Err(e) => Err(e)
    case Ok(Parsed(es, n)) =>
      match FoldFieldOptions(es)
      case Err(e) => Err(e)
      case Ok(info) => if n < |toks| then Err(GrammarError(n)) else Ok(info)
  }

  /** The options one helper attribute on a field gives. */
  function FieldAttrInfo(args: AttrArgs, build: Build): Result<FieldInfo> {
    match args
    case Bare => Ok(DefaultInfo)
    case Group(toks) => ParseFieldArgs(toks, build)
    case Malformed => Err(BadAttrForm)
  }

  /** The body of the per-attribute step of the expansion. */
  method ParseFieldAttr(args: AttrArgs, build: Build) returns (r: Result<FieldInfo>)
    ensures r == FieldAttrInfo(args, build)
  {
    match args {
      case Bare =>
        r := Ok(DefaultInfo);
      case Malformed =>
        r := Err(BadAttrForm);
      case Group(toks) =>
        var parsed := ParseEntries(toks, 0, build);
        if parsed.Err? {
          return Err(parsed.error);
        }
        r := FoldFieldEntries(parsed.value.value);
        if r.Ok? && parsed.value.next < |toks| {
          r := Err(GrammarError(parsed.value.next));
        }
    }
  }

  /** The spelling of an admitted entry list yields the fold of its entries. */
  lemma ParseFieldArgsOfRender(es: seq<Entry>, build: Build)
    requires |es| >= 1 && AllAdmitted(es, build)
    ensures ParseFieldArgs(Render(es), build) == FoldFieldOptions(es)
  {
    RenderRoundTrip(es, build);
  }

  /** An empty argument group is not the bare form: it is a grammar error. */
  lemma EmptyGroupRejected(build: Build)
    ensures FieldAttrInfo(Group([]), build) == Err(GrammarError(0))
  {
  }

  /** A field argument list holding `=` followed by anything but a string
      literal is refused, wherever the `=` stands. */
  lemma NonStringFieldValueRejected(toks: seq<Token>, build: Build, q: nat)
    requires q < |toks| && toks[q] == Eq
    requires q + 1 == |toks| || !toks[q + 1].StrLit?
    ensures ParseFieldArgs(toks, build).Err?
  {
    NonStringValueNeverCompletes(toks, build, q);
  }

  /** Only the bare form grants write access; any argument list that is
      accepted yields a field that cannot be written. */
  lemma OnlyBareGrantsWrite(args: AttrArgs, build: Build)
    requires FieldAttrInfo(args, build).Ok?
    ensures FieldAttrInfo(args, build).value.write <==> args.Bare?
  {
    if args.Group? {
      var Parsed(es, _) := ParseEntries(args.toks, 0, build).value;
      FieldOptionsMeaning(es);
    }
  }

  /** An accepted attribute grants read or write access without a rename, or
      is an argument list; so a renamed field is never writable. */
  lemma RenamedNeverWritable(args: AttrArgs, build: Build)
    requires FieldAttrInfo(args, build).Ok?
    requires FieldAttrInfo(args, build).value.rename.Some?
    ensures !FieldAttrInfo(args, build).value.write
  {
    OnlyBareGrantsWrite(args, build);
  }
}
