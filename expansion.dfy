/** The `UserData` derive: struct options, per-field options, key assignment
    and the two ordered lists of match arms behind `Index` and `NewIndex`. */
module Expansion {
  import opened Syntax
  import opened FieldOptions
  import opened StructOptions
  import opened Dispatch

  /** Where the expansion panics instead of reporting an error: a field
      without options, or a string key on a field that has no name, reached
      while emitting its read arm or its write arm. */
  datatype PanicSite = MissingInfo | UnnamedRead | UnnamedWrite

  /** What one expansion produces: nothing at all, a compile error, a panic
      of the macro, or the `UserData` impl with its crate root and its read
      (`Index`) and write (`NewIndex`) arms, each followed by the unknown-key
      fallback. */
  datatype Output =
    | NoOutput
    | CompileError(error: Error)
    | Panic(field: nat, site: PanicSite)
    | Impl(crateRoot: string, readArms: seq<Arm>, writeArms: seq<Arm>)

  /** The two directions of access. */
  datatype Access = Get | Set

  predicate Grants(info: FieldInfo, dir: Access) {
    if dir == Get then info.read else info.write
  }

  function ArmsOf(out: Output, dir: Access): seq<Arm>
    requires out.Impl?
  {
    if dir == Get then out.readArms else out.writeArms
  }

  // ---------------------------------------------------------------------
  // Collecting field options: for each field, each helper attribute's
  // options are stored under the field's index, a later one replacing an
  // earlier one; the first failure aborts.

  function AttrsFrom(attrs: seq<Attr>, j: nat, idx: nat, infos: map<nat, FieldInfo>, build: Build)
    : Result<map<nat, FieldInfo>>
    requires j <= |attrs|
    decreases |attrs| - j
  {
    if j == |attrs| then Ok(infos)
    else if !IsHelper(attrs[j]) then AttrsFrom(attrs, j + 1, idx, infos, build)
    else
      match FieldAttrInfo(attrs[j].args, build)
      case Err(e) => Err(e)
      case Ok(info) => AttrsFrom(attrs, j + 1, idx, infos[idx := info], build)
  }

  function FieldsFrom(fields: seq<Field>, idx: nat, infos: map<nat, FieldInfo>, build: Build)
    : Result<map<nat, FieldInfo>>
    requires idx <= |fields|
    decreases |fields| - idx
  {
    if idx == |fields| then Ok(infos)
    else
      match AttrsFrom(fields[idx].attrs, 0, idx, infos, build)
      case Err(e) => Err(e)
      case Ok(m) => FieldsFrom(fields, idx + 1, m, build)
  }

  /** Continue with the fields after `idx` once field `idx` is done. */
  function ThenFields(fields: seq<Field>, idx: nat, r: Result<map<nat, FieldInfo>>, build: Build)
    : Result<map<nat, FieldInfo>>
    requires idx < |fields|
  {
    match r
    case Err(e) => Err(e)
    case Ok(m) => FieldsFrom(fields, idx + 1, m, build)
  }

  function CollectInfos(fields: seq<Field>, build: Build): Result<map<nat, FieldInfo>> {
    FieldsFrom(fields, 0, map[], build)
  }

  // ---------------------------------------------------------------------
  // Keys and arms.

  /** The key a field is exposed under: its rename, else its name, else its
      1-based position. */
  function ExposedKey(rename: Option<string>, name: Option<string>, idx: nat): Key {
    match rename
    case Some(r) => Str(r)
    case None =>
      match name
      case Some(n) => Str(n)
      case None => Int(idx + 1)
  }

  datatype Emitted = Panicked(field: nat, site: PanicSite) | Arms(read: seq<Arm>, write: seq<Arm>)

  /** Emission over fields `idx..`, appending to the arms emitted so far. */
  function EmitFrom(fields: seq<Field>, infos: map<nat, FieldInfo>, build: Build,
                    idx: nat, rd: seq<Arm>, wr: seq<Arm>): Emitted
    requires idx <= |fields|
    decreases |fields| - idx
  {
    if idx == |fields| then Arms(rd, wr)
    else if idx !in infos then
      if !build.unannotatedSkipped then Panicked(idx, MissingInfo)
      else EmitFrom(fields, infos, build, idx + 1, rd, wr)
    else
      var info := infos[idx];
      var key := ExposedKey(info.rename, fields[idx].name, idx);
      var unnamedStr := key.Str? && fields[idx].name.None?;
      if info.read && unnamedStr then Panicked(idx, UnnamedRead)
      else if info.write && unnamedStr then Panicked(idx, UnnamedWrite)
      else
        EmitFrom(fields, infos, build, idx + 1,
                 if info.read then rd + [Arm(key, idx)] else rd,
                 if info.write then wr + [Arm(key, idx)] else wr)
  }

  /** The whole expansion. */
  function Expand(s: Struct, build: Build, pathOk: string -> bool): Output {
    match CrateRoot(s.attrs, build, pathOk)
    case Err(e) => CompileError(e)
    case Ok(root) =>
      if |s.fields| == 0 then NoOutput
      else
        match CollectInfos(s.fields, build)
        case Err(e) => CompileError(e)
        case Ok(infos) =>
          match EmitFrom(s.fields, infos, build, 0, [], [])
          case Panicked(i, site) => Panic(i, site)
          case Arms(rd, wr) => Impl(root, rd, wr)
  }

  /** The expansion as the derive runs it: struct options first, the
      zero-field exit, the options map filled in nested loops, then the arms
      appended field by field. */
  method ImplUserData(s: Struct, build: Build, pathOk: string -> bool) returns (out: Output)
    ensures out == Expand(s, build, pathOk)
  {
    var root := ResolveCrateRoot(s.attrs, build, pathOk);
    if root.Err? {
      return CompileError(root.error);
    }
    var fields := s.fields;
    if |fields| == 0 {
      return NoOutput;
    }
    var infos: map<nat, FieldInfo> := map[];
    for idx := 0 to |fields|
      invariant FieldsFrom(fields, idx, infos, build) == CollectInfos(fields, build)
    {
      var attrs := fields[idx].attrs;
      for j := 0 to |attrs|
        invariant ThenFields(fields, idx, AttrsFrom(attrs, j, idx, infos, build), build)
               == CollectInfos(fields, build)
      {
        if IsHelper(attrs[j]) {
          var info := ParseFieldAttr(attrs[j].args, build);
          if info.Err? {
            return CompileError(info.error);
          }
          infos := infos[idx := info.value];
        }
      }
    }
    var readArms: seq<Arm> := [];
    var writeArms: seq<Arm> := [];
    for idx := 0 to |fields|
      invariant EmitFrom(fields, infos, build, idx, readArms, writeArms)
             == EmitFrom(fields, infos, build, 0, [], [])
    {
      if idx !in infos {
        if !build.unannotatedSkipped {
          return Panic(idx, MissingInfo);
        }
      } else {
        var info := infos[idx];
        var key := ExposedKey(info.rename, fields[idx].name, idx);
        if info.read {
          if key.Str? && fields[idx].name.None? {
            return Panic(idx, UnnamedRead);
          }
          readArms := readArms + [Arm(key, idx)];
        }
        if info.write {
          if key.Str? && fields[idx].name.None? {
            return Panic(idx, UnnamedWrite);
          }
          writeArms := writeArms + [Arm(key, idx)];
        }
      }
    }
    return Impl(root.value, readArms, writeArms);
  }

  // ---------------------------------------------------------------------
  // What the loops compute, stated per field.

  /** The options that decide a field: those of its last helper attribute. */
  function Policy(f: Field, build: Build): Option<FieldInfo> {
    match LastWhere(f.attrs, IsHelper)
    case None => None
    case Some(a) =>
      if FieldAttrInfo(a.args, build).Ok? then Some(FieldAttrInfo(a.args, build).value) else None
  }

  /** Every helper attribute of the field is accepted. */
  predicate FieldValid(f: Field, build: Build) {
    forall q :: 0 <= q < |f.attrs| && IsHelper(f.attrs[q]) ==> FieldAttrInfo(f.attrs[q].args, build).Ok?
  }

  /** `e` is the error of the first helper attribute of `f` that is refused. */
  predicate FirstAttrError(f: Field, build: Build, e: Error) {
    exists q :: 0 <= q < |f.attrs| && IsHelper(f.attrs[q]) && FieldAttrInfo(f.attrs[q].args, build) == Err(e)
      && forall r :: 0 <= r < q && IsHelper(f.attrs[r]) ==> FieldAttrInfo(f.attrs[r].args, build).Ok?
  }

  predicate HasHelper(f: Field) {
    exists q :: 0 <= q < |f.attrs| && IsHelper(f.attrs[q])
  }

  /** A field with accepted attributes has options exactly when it has a
      helper attribute. */
  lemma PolicyPresent(f: Field, build: Build)
    requires FieldValid(f, build)
    ensures Policy(f, build).Some? <==> HasHelper(f)
  {
    var last := LastWhere(f.attrs, IsHelper);
    if last.Some? {
      var q :| 0 <= q < |f.attrs| && f.attrs[q] == last.value;
    }
  }

  /** The attribute fold succeeds exactly when every helper attribute from
      `j` on is accepted. */
  lemma {:induction false} AttrsFromOk(attrs: seq<Attr>, j: nat, idx: nat, infos: map<nat, FieldInfo>, build: Build)
    requires j <= |attrs|
    decreases |attrs| - j
    ensures AttrsFrom(attrs, j, idx, infos, build).Ok?
        <==> forall q :: j <= q < |attrs| && IsHelper(attrs[q]) ==> FieldAttrInfo(attrs[q].args, build).Ok?
  {
    if j < |attrs| {
      var r := FieldAttrInfo(attrs[j].args, build);
      if !IsHelper(attrs[j]) {
        AttrsFromOk(attrs, j + 1, idx, infos, build);
      } else if r.Ok? {
        AttrsFromOk(attrs, j + 1, idx, infos[idx := r.value], build);
      }
    }
  }

  /** A successful attribute fold stores the options of the last helper
      attribute from `j` on, and leaves the map alone when there is none. */
  lemma {:induction false} AttrsFromValue(attrs: seq<Attr>, j: nat, idx: nat, infos: map<nat, FieldInfo>, build: Build)
    requires j <= |attrs|
    requires AttrsFrom(attrs, j, idx, infos, build).Ok?
    decreases |attrs| - j
    ensures
      match LastWhere(attrs[j..], IsHelper)
      case None => AttrsFrom(attrs, j, idx, infos, build).value == infos
      case Some(a) =>
        FieldAttrInfo(a.args, build).Ok?
        && AttrsFrom(attrs, j, idx, infos, build).value == infos[idx := FieldAttrInfo(a.args, build).value]
  {
    if j < |attrs| {
      assert attrs[j..] == [attrs[j]] + attrs[j + 1..];
      LastWhereCons(attrs[j], attrs[j + 1..], IsHelper);
      if !IsHelper(attrs[j]) {
        AttrsFromValue(attrs, j + 1, idx, infos, build);
      } else {
        var info := FieldAttrInfo(attrs[j].args, build).value;
        AttrsFromValue(attrs, j + 1, idx, infos[idx := info], build);
      }
    }
  }

  /** When the attribute fold fails, it reports the error of the first
      refused helper attribute from `j` on. */
  lemma {:induction false} AttrsFromErr(attrs: seq<Attr>, j: nat, idx: nat, infos: map<nat, FieldInfo>, build: Build)
    requires j <= |attrs|
    requires AttrsFrom(attrs, j, idx, infos, build).Err?
    decreases |attrs| - j
    ensures exists q :: (j <= q < |attrs| && IsHelper(attrs[q])
                         && FieldAttrInfo(attrs[q].args, build) == Err(AttrsFrom(attrs, j, idx, infos, build).error)
                         && forall r :: j <= r < q && IsHelper(attrs[r]) ==> FieldAttrInfo(attrs[r].args, build).Ok?)
  {
    var r := FieldAttrInfo(attrs[j].args, build);
    if !IsHelper(attrs[j]) {
      AttrsFromErr(attrs, j + 1, idx, infos, build);
    } else if r.Ok? {
      AttrsFromErr(attrs, j + 1, idx, infos[idx := r.value], build);
    } else {
      assert FieldAttrInfo(attrs[j].args, build) == Err(AttrsFrom(attrs, j, idx, infos, build).error);
    }
  }

  /** The field fold from `idx` on succeeds exactly when every helper
      attribute of those fields is accepted. */
  lemma {:induction false} FieldsFromOk(fields: seq<Field>, idx: nat, infos: map<nat, FieldInfo>, build: Build)
    requires idx <= |fields|
    decreases |fields| - idx
    ensures FieldsFrom(fields, idx, infos, build).Ok?
        <==> forall i :: idx <= i < |fields| ==> FieldValid(fields[i], build)
  {
    if idx < |fields| {
      var f := fields[idx];
      AttrsFromOk(f.attrs, 0, idx, infos, build);
      match AttrsFrom(f.attrs, 0, idx, infos, build) {
        case Err(e) =>
        case Ok(m) => FieldsFromOk(fields, idx + 1, m, build);
      }
    }
  }

  /** A successful field fold keeps what was collected before `idx` and adds
      the options of exactly the later fields that have a helper attribute. */
  lemma {:induction false} FieldsFromValue(fields: seq<Field>, idx: nat, infos: map<nat, FieldInfo>, build: Build)
    requires idx <= |fields|
    requires forall i :: i in infos ==> i < idx
    requires FieldsFrom(fields, idx, infos, build).Ok?
    decreases |fields| - idx
    ensures var m := FieldsFrom(fields, idx, infos, build).value;
      (forall i :: i in m ==> i in infos || (idx <= i < |fields| && Policy(fields[i], build).Some?))
      && (forall i :: i in infos ==> i in m && m[i] == infos[i])
      && (forall i :: idx <= i < |fields| && Policy(fields[i], build).Some? ==>
            i in m && m[i] == Policy(fields[i], build).value)
  {
    if idx < |fields| {
      var f := fields[idx];
      var m := AttrsFrom(f.attrs, 0, idx, infos, build).value;
      AttrsFromValue(f.attrs, 0, idx, infos, build);
      assert f.attrs[0..] == f.attrs;
      assert m == if Policy(f, build).Some? then infos[idx := Policy(f, build).value] else infos;
      FieldsFromValue(fields, idx + 1, m, build);
    }
  }

  /** A failed field fold reports the first refused helper attribute of the
      first field from `idx` on that has one. */
  lemma {:induction false} FieldsFromErr(fields: seq<Field>, idx: nat, infos: map<nat, FieldInfo>, build: Build)
    requires idx <= |fields|
    requires FieldsFrom(fields, idx, infos, build).Err?
    decreases |fields| - idx
    ensures exists i :: (idx <= i < |fields| && (forall i' :: idx <= i' < i ==> FieldValid(fields[i'], build))
                         && FirstAttrError(fields[i], build, FieldsFrom(fields, idx, infos, build).error))
  {
    var f := fields[idx];
    AttrsFromOk(f.attrs, 0, idx, infos, build);
    match AttrsFrom(f.attrs, 0, idx, infos, build) {
      case Err(e) =>
        AttrsFromErr(f.attrs, 0, idx, infos, build);
        assert FirstAttrError(f, build, e);
      case Ok(m) =>
        assert FieldValid(f, build);
        FieldsFromErr(fields, idx + 1, m, build);
    }
  }

  /** Collecting options succeeds exactly when every helper attribute of every
      field is accepted; the map then holds, for exactly the fields that have
      a helper attribute, the options of the last one. */
  lemma CollectInfosMeaning(fields: seq<Field>, build: Build)
    ensures CollectInfos(fields, build).Ok?
        <==> forall i :: 0 <= i < |fields| ==> FieldValid(fields[i], build)
    ensures CollectInfos(fields, build).Ok? ==>
      var m := CollectInfos(fields, build).value;
      forall i: nat :: (i in m <==> i < |fields| && Policy(fields[i], build).Some?)
                       && (i in m ==> m[i] == Policy(fields[i], build).value)
    ensures CollectInfos(fields, build).Err? ==>
      exists i :: 0 <= i < |fields| && (forall i' :: 0 <= i' < i ==> FieldValid(fields[i'], build))
        && FirstAttrError(fields[i], build, CollectInfos(fields, build).error)
  {
    FieldsFromOk(fields, 0, map[], build);
    if CollectInfos(fields, build).Ok? {
      FieldsFromValue(fields, 0, map[], build);
    } else {
      FieldsFromErr(fields, 0, map[], build);
    }
  }

  /** A field the emission loop cannot get past. */
  predicate Blocked(fields: seq<Field>, infos: map<nat, FieldInfo>, build: Build, i: nat)
    requires i < |fields|
  {
    if i !in infos then !build.unannotatedSkipped
    else (infos[i].read || infos[i].write) && infos[i].rename.Some? && fields[i].name.None?
  }

  function SiteOf(infos: map<nat, FieldInfo>, i: nat): PanicSite {
    if i !in infos then MissingInfo else if infos[i].read then UnnamedRead else UnnamedWrite
  }

  /** `a` is the arm field `a.field` gets in direction `dir`. */
  predicate ArmFor(fields: seq<Field>, infos: map<nat, FieldInfo>, dir: Access, a: Arm) {
    a.field < |fields| && a.field in infos && Grants(infos[a.field], dir)
    && a.key == ExposedKey(infos[a.field].rename, fields[a.field].name, a.field)
  }

  /** Emission from `idx` completes exactly when no field from `idx` on is blocked. */
  lemma {:induction false} EmitFromCompletes(fields: seq<Field>, infos: map<nat, FieldInfo>, build: Build,
                                             idx: nat, rd: seq<Arm>, wr: seq<Arm>)
    requires idx <= |fields|
    decreases |fields| - idx
    ensures EmitFrom(fields, infos, build, idx, rd, wr).Arms?
        <==> forall i :: idx <= i < |fields| ==> !Blocked(fields, infos, build, i)
  {
    if idx < |fields| && !Blocked(fields, infos, build, idx) {
      if idx !in infos {
        EmitFromCompletes(fields, infos, build, idx + 1, rd, wr);
      } else {
        var info := infos[idx];
        var key := ExposedKey(info.rename, fields[idx].name, idx);
        EmitFromCompletes(fields, infos, build, idx + 1,
                          if info.read then rd + [Arm(key, idx)] else rd,
                          if info.write then wr + [Arm(key, idx)] else wr);
      }
    }
  }

  /** The arms of direction `dir` among two accumulators. */
  function Pick(dir: Access, rd: seq<Arm>, wr: seq<Arm>): seq<Arm> {
    if dir == Get then rd else wr
  }

  /** Completed emission keeps the arms of direction `dir` in field order. */
  lemma {:induction false} EmitFromOrdered(fields: seq<Field>, infos: map<nat, FieldInfo>, build: Build,
                                           idx: nat, rd: seq<Arm>, wr: seq<Arm>, dir: Access)
    requires idx <= |fields|
    requires Ascending(Pick(dir, rd, wr))
    requires forall a :: a in Pick(dir, rd, wr) ==> a.field < idx
    requires EmitFrom(fields, infos, build, idx, rd, wr).Arms?
    decreases |fields| - idx
    ensures var out := EmitFrom(fields, infos, build, idx, rd, wr);
      Ascending(Pick(dir, out.read, out.write))
  {
    if idx < |fields| {
      if idx !in infos {
        EmitFromOrdered(fields, infos, build, idx + 1, rd, wr, dir);
      } else {
        var info := infos[idx];
        var key := ExposedKey(info.rename, fields[idx].name, idx);
        var rd' := if info.read then rd + [Arm(key, idx)] else rd;
        var wr' := if info.write then wr + [Arm(key, idx)] else wr;
        AppendArm(Pick(dir, rd, wr), Arm(key, idx), Grants(info, dir));
        assert Pick(dir, rd', wr') == if Grants(info, dir) then Pick(dir, rd, wr) + [Arm(key, idx)] else Pick(dir, rd, wr);
        EmitFromOrdered(fields, infos, build, idx + 1, rd', wr', dir);
      }
    }
  }

  /** Completed emission appends the arm of every later field that grants
      direction `dir`, under its exposed key, and no other arm. */
  lemma {:induction false} EmitFromArms(fields: seq<Field>, infos: map<nat, FieldInfo>, build: Build,
                                        idx: nat, rd: seq<Arm>, wr: seq<Arm>, dir: Access)
    requires idx <= |fields|
    requires EmitFrom(fields, infos, build, idx, rd, wr).Arms?
    decreases |fields| - idx
    ensures var out := EmitFrom(fields, infos, build, idx, rd, wr);
      forall a :: a in Pick(dir, out.read, out.write)
             <==> a in Pick(dir, rd, wr) || (idx <= a.field && ArmFor(fields, infos, dir, a))
  {
    if idx < |fields| {
      if idx !in infos {
        forall a: Arm | idx <= a.field && ArmFor(fields, infos, dir, a) ensures idx + 1 <= a.field {
        }
        EmitFromArms(fields, infos, build, idx + 1, rd, wr, dir);
      } else {
        var info := infos[idx];
        var key := ExposedKey(info.rename, fields[idx].name, idx);
        var rd' := if info.read then rd + [Arm(key, idx)] else rd;
        var wr' := if info.write then wr + [Arm(key, idx)] else wr;
        assert forall a :: a in Pick(dir, rd', wr') <==> a in Pick(dir, rd, wr) || (Grants(info, dir) && a == Arm(key, idx));
        forall a: Arm ensures (idx <= a.field && ArmFor(fields, infos, dir, a))
                     <==> (Grants(info, dir) && a == Arm(key, idx)) || (idx + 1 <= a.field && ArmFor(fields, infos, dir, a)) {
        }
        EmitFromArms(fields, infos, build, idx + 1, rd', wr', dir);
      }
    }
  }

  /** Appending, or not, the arm of the next field keeps the arms in field
      order and below the next index. */
  lemma AppendArm(acc: seq<Arm>, arm: Arm, granted: bool)
    requires Ascending(acc) && forall a :: a in acc ==> a.field < arm.field
    ensures var acc' := if granted then acc + [arm] else acc;
      Ascending(acc') && (forall a :: a in acc' ==> a.field < arm.field + 1)
      && forall a :: a in acc' <==> a in acc || (granted && a == arm)
  {
    if granted {
      var acc' := acc + [arm];
      forall p, q | 0 <= p < q < |acc'| ensures acc'[p].field < acc'[q].field {
        assert acc'[p] == acc[p];
        if q < |acc| {
          assert acc'[q] == acc[q];
        } else {
          assert acc[p] in acc;
        }
      }
    }
  }

  /** Emission that panics does so at the first blocked field from `idx` on. */
  lemma {:induction false} EmitFromPanics(fields: seq<Field>, infos: map<nat, FieldInfo>, build: Build,
                                          idx: nat, rd: seq<Arm>, wr: seq<Arm>)
    requires idx <= |fields|
    requires EmitFrom(fields, infos, build, idx, rd, wr).Panicked?
    decreases |fields| - idx
    ensures var Panicked(i, site) := EmitFrom(fields, infos, build, idx, rd, wr);
      idx <= i < |fields| && Blocked(fields, infos, build, i)
      && (forall i' :: idx <= i' < i ==> !Blocked(fields, infos, build, i'))
      && site == SiteOf(infos, i)
  {
    if !Blocked(fields, infos, build, idx) {
      if idx !in infos {
        EmitFromPanics(fields, infos, build, idx + 1, rd, wr);
      } else {
        var info := infos[idx];
        var key := ExposedKey(info.rename, fields[idx].name, idx);
        EmitFromPanics(fields, infos, build, idx + 1,
                       if info.read then rd + [Arm(key, idx)] else rd,
                       if info.write then wr + [Arm(key, idx)] else wr);
      }
    }
  }

  // ---------------------------------------------------------------------
  // The expansion's outcome, stated on the struct.

  /** Field `i` is exposed under key `k` in direction `dir`. */
  predicate Exposes(s: Struct, build: Build, dir: Access, i: nat, k: Key) {
    i < |s.fields| && Policy(s.fields[i], build).Some? && Grants(Policy(s.fields[i], build).value, dir)
    && k == ExposedKey(Policy(s.fields[i], build).value.rename, s.fields[i].name, i)
  }

  /** Field `i` makes the expansion panic: it has no options (as written), or
      it is read or written under a rename although it has no name. */
  predicate Stuck(s: Struct, build: Build, i: nat)
    requires i < |s.fields|
  {
    match Policy(s.fields[i], build)
    case None => !build.unannotatedSkipped
    case Some(info) => (info.read || info.write) && info.rename.Some? && s.fields[i].name.None?
  }

  function StuckSite(s: Struct, build: Build, i: nat): PanicSite
    requires i < |s.fields|
  {
    match Policy(s.fields[i], build)
    case None => MissingInfo
    case Some(info) => if info.read then UnnamedRead else UnnamedWrite
  }

  lemma InfosArePolicies(s: Struct, build: Build)
    requires CollectInfos(s.fields, build).Ok?
    ensures var m := CollectInfos(s.fields, build).value;
      (forall i :: 0 <= i < |s.fields| ==>
         (Blocked(s.fields, m, build, i) <==> Stuck(s, build, i)) && SiteOf(m, i) == StuckSite(s, build, i))
      && (forall dir, a :: ArmFor(s.fields, m, dir, a) <==> Exposes(s, build, dir, a.field, a.key))
  {
    CollectInfosMeaning(s.fields, build);
  }

  /** What an expansion yields: nothing for a struct without fields (once its
      options are accepted); a compile error, the first one met, for refused
      struct or field options, with no partial output; a panic at the first
      stuck field; and otherwise the impl, qualified by the struct's crate
      root. */
  lemma ExpandOutcome(s: Struct, build: Build, pathOk: string -> bool)
    ensures Expand(s, build, pathOk).NoOutput?
        <==> CrateRoot(s.attrs, build, pathOk).Ok? && |s.fields| == 0
    ensures Expand(s, build, pathOk).CompileError?
        <==> CrateRoot(s.attrs, build, pathOk).Err?
             || (|s.fields| > 0 && exists i :: 0 <= i < |s.fields| && !FieldValid(s.fields[i], build))
    ensures Expand(s, build, pathOk).CompileError? ==>
      var e := Expand(s, build, pathOk).error;
      CrateRoot(s.attrs, build, pathOk) == Err(e)
      || (CrateRoot(s.attrs, build, pathOk).Ok?
          && exists i :: 0 <= i < |s.fields| && (forall j :: 0 <= j < i ==> FieldValid(s.fields[j], build))
                         && FirstAttrError(s.fields[i], build, e))
    ensures Expand(s, build, pathOk).Panic?
        <==> CrateRoot(s.attrs, build, pathOk).Ok? && |s.fields| > 0
             && (forall i :: 0 <= i < |s.fields| ==> FieldValid(s.fields[i], build))
             && exists i :: 0 <= i < |s.fields| && Stuck(s, build, i)
    ensures Expand(s, build, pathOk).Panic? ==>
      var Panic(i, site) := Expand(s, build, pathOk);
      i < |s.fields| && Stuck(s, build, i) && (forall j :: 0 <= j < i ==> !Stuck(s, build, j))
      && site == StuckSite(s, build, i)
    ensures Expand(s, build, pathOk).Impl? ==>
      Expand(s, build, pathOk).crateRoot == CrateRoot(s.attrs, build, pathOk).value
  {
    CollectInfosMeaning(s.fields, build);
    if CrateRoot(s.attrs, build, pathOk).Ok? && |s.fields| > 0 && CollectInfos(s.fields, build).Ok? {
      var m := CollectInfos(s.fields, build).value;
      InfosArePolicies(s, build);
      EmitFromCompletes(s.fields, m, build, 0, [], []);
      if EmitFrom(s.fields, m, build, 0, [], []).Panicked? {
        EmitFromPanics(s.fields, m, build, 0, [], []);
      }
    }
  }

  /** The arms of each table are in declaration order, and a table holds an
      arm for field `i` under key `k` exactly when the field's options grant
      that direction and `k` is its exposed key. */
  lemma ImplArms(s: Struct, build: Build, pathOk: string -> bool, dir: Access)
    requires Expand(s, build, pathOk).Impl?
    ensures Ascending(ArmsOf(Expand(s, build, pathOk), dir))
    ensures forall a :: a in ArmsOf(Expand(s, build, pathOk), dir) <==> Exposes(s, build, dir, a.field, a.key)
  {
    var m := CollectInfos(s.fields, build).value;
    InfosArePolicies(s, build);
    EmitFromOrdered(s.fields, m, build, 0, [], [], dir);
    EmitFromArms(s.fields, m, build, 0, [], [], dir);
  }

  /** Dispatch: a key reaches field `i` exactly when field `i` is exposed
      under that key in that direction and no earlier field is; so with
      duplicate keys the earlier field wins. */
  lemma Reachability(s: Struct, build: Build, pathOk: string -> bool, dir: Access, k: Key, i: nat)
    requires Expand(s, build, pathOk).Impl?
    ensures Lookup(ArmsOf(Expand(s, build, pathOk), dir), k) == Hit(i)
        <==> Exposes(s, build, dir, i, k) && forall j :: 0 <= j < i ==> !Exposes(s, build, dir, j, k)
  {
    var arms := ArmsOf(Expand(s, build, pathOk), dir);
    var exposed := (j: nat, k': Key) => Exposes(s, build, dir, j, k');
    ImplArms(s, build, pathOk, dir);
    assert forall a :: a in arms <==> exposed(a.field, a.key);
    LookupFirstMatch(arms, exposed, k, i);
    assert exposed(i, k) == Exposes(s, build, dir, i, k);
    if forall j: nat :: j < i ==> !exposed(j, k) {
      forall j | 0 <= j < i ensures !Exposes(s, build, dir, j, k) {
        assert !exposed(j, k);
      }
    }
    if forall j :: 0 <= j < i ==> !Exposes(s, build, dir, j, k) {
      forall j: nat | j < i ensures !exposed(j, k) {
        assert !Exposes(s, build, dir, j, k);
      }
    }
  }

  /** Fallback: a key that no field is exposed under in a direction yields
      the unknown-key error carrying that key, and only such a key does; each
      table falls back independently of the other. */
  lemma UnknownKeyFallback(s: Struct, build: Build, pathOk: string -> bool, dir: Access, k: Key)
    requires Expand(s, build, pathOk).Impl?
    ensures Lookup(ArmsOf(Expand(s, build, pathOk), dir), k) == UnknownKey(k)
        <==> forall i :: !Exposes(s, build, dir, i, k)
  {
    var arms := ArmsOf(Expand(s, build, pathOk), dir);
    ImplArms(s, build, pathOk, dir);
    if forall i :: !Exposes(s, build, dir, i, k) {
      forall p | 0 <= p < |arms| ensures arms[p].key != k {
        assert arms[p] in arms;
      }
    } else {
      var i :| Exposes(s, build, dir, i, k);
      assert Arm(k, i) in arms;
    }
  }

  /** A field without name and without rename that a direction grants is
      reached through the integer key of its 1-based position. */
  lemma PositionalKeyReachesField(s: Struct, build: Build, pathOk: string -> bool, dir: Access, i: nat)
    requires Expand(s, build, pathOk).Impl?
    requires i < |s.fields| && s.fields[i].name.None?
    requires Policy(s.fields[i], build).Some? && Policy(s.fields[i], build).value.rename.None?
    requires Grants(Policy(s.fields[i], build).value, dir)
    ensures Lookup(ArmsOf(Expand(s, build, pathOk), dir), Int(i + 1)) == Hit(i)
  {
    Reachability(s, build, pathOk, dir, Int(i + 1), i);
  }

  /** A renamed field is reached only through its new name. */
  lemma RenamedFieldOnlyByNewName(s: Struct, build: Build, pathOk: string -> bool, dir: Access, k: Key, i: nat)
    requires Expand(s, build, pathOk).Impl?
    requires Lookup(ArmsOf(Expand(s, build, pathOk), dir), k) == Hit(i)
    requires i < |s.fields| && Policy(s.fields[i], build).Some?
    requires Policy(s.fields[i], build).value.rename.Some?
    ensures k == Str(Policy(s.fields[i], build).value.rename.value)
  {
    Reachability(s, build, pathOk, dir, k, i);
  }

  /** The unwrap of a field name on the write side never fails: a renamed
      field is never writable. */
  lemma WriteSideNeverPanics(s: Struct, build: Build, pathOk: string -> bool)
    ensures Expand(s, build, pathOk).Panic? ==> Expand(s, build, pathOk).site != UnnamedWrite
  {
    ExpandOutcome(s, build, pathOk);
    var out := Expand(s, build, pathOk);
    if out.Panic? {
      var f := s.fields[out.field];
      PolicyPresent(f, build);
      var a := LastWhere(f.attrs, IsHelper);
      if a.Some? {
        if FieldAttrInfo(a.value.args, build).Ok? && FieldAttrInfo(a.value.args, build).value.rename.Some? {
          RenamedNeverWritable(a.value.args, build);
        }
      }
    }
  }

  /** Without the skipping correction, no struct with a field lacking a
      helper attribute ever gets an impl: the lookup of that field's options
      panics. */
  lemma AsWrittenEveryFieldNeedsOptions(s: Struct, build: Build, pathOk: string -> bool)
    requires !build.unannotatedSkipped
    requires Expand(s, build, pathOk).Impl?
    ensures forall i :: 0 <= i < |s.fields| ==> HasHelper(s.fields[i])
  {
    ExpandOutcome(s, build, pathOk);
    forall i | 0 <= i < |s.fields| ensures HasHelper(s.fields[i]) {
      PolicyPresent(s.fields[i], build);
      assert !Stuck(s, build, i);
    }
  }

  /** With unannotated fields skipped, the options lookup never panics and
      such a field has no arm in either table. */
  lemma IntendedSkipsUnannotatedFields(s: Struct, build: Build, pathOk: string -> bool, dir: Access, i: nat)
    requires build.unannotatedSkipped
    requires i < |s.fields| && !HasHelper(s.fields[i])
    ensures Expand(s, build, pathOk).Panic? ==> Expand(s, build, pathOk).site != MissingInfo
    ensures Expand(s, build, pathOk).Impl? ==>
      forall a :: a in ArmsOf(Expand(s, build, pathOk), dir) ==> a.field != i
  {
    ExpandOutcome(s, build, pathOk);
    if Expand(s, build, pathOk).Impl? {
      ImplArms(s, build, pathOk, dir);
      assert Policy(s.fields[i], build).None?;
    }
  }
}
