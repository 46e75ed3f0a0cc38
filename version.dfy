/** The plugin's version value (`VersionValue` in src/version.rs): a SemVer
    version wrapped as a shell custom value. */
module VersionValue {
  import opened Wrappers
  import opened Casts
  import opened Decimal
  import opened Orders
  import opened SemVer
  import opened SemVerOrder
  import opened ShellValues

  /** `bump_major`: the next major release. The Rust addition `major + 1`
      overflows at `u64::MAX`, which callers must avoid. */
  function BumpMajor(v: Version): (r: Version)
    requires v.major < U64_MAX
    ensures Precedence(v, r) == Less
    ensures Render(r) == ToDecimal(v.major + 1) + ".0.0"
  {
    Version(v.major + 1, 0, 0, [], [])
  }

  /** The result of `bump_major` depends on the major number alone: minor,
      patch, pre-release and build metadata are all forgotten. */
  lemma BumpMajorForgets(v: Version, w: Version)
    requires v.major == w.major < U64_MAX
    ensures BumpMajor(v) == BumpMajor(w)
    ensures BumpMajor(v).pre == [] && BumpMajor(v).build == []
  {
  }

  /** `try_from_value`: a version custom value as it is, a string parsed, and
      anything else refused. */
  function TryFromValue(value: Value): (r: Result<Version, Error>)
    ensures value.VersionVal? ==> r == Ok(value.version)
    ensures value.Str? ==> (r.Ok? <==> Parse(value.str).Some?)
    ensures value.Str? && r.Ok? ==> Render(r.value) == value.str
    ensures value.Str? && r.Err? ==> r.error == IncorrectValue("Not a valid version")
    ensures value.OtherCustom? ==> r == Err(CantConvert("version", "not a version"))
    ensures !(value.VersionVal? || value.Str? || value.OtherCustom?) ==>
              r == Err(CantConvert("version", TypeName(value)))
  {
    match value
    case VersionVal(v) => Ok(v)
    case OtherCustom(_) => Err(CantConvert("version", "not a version"))
    case Str(s) =>
      (match Parse(s)
       case Some(v) => Ok(v)
       case None => Err(IncorrectValue("Not a valid version")))
    case _ => Err(CantConvert("version", TypeName(value)))
  }

  /** A rendered version converts back to itself. */
  lemma RenderedConverts(v: Version)
    ensures TryFromValue(Str(Render(v))) == Ok(v)
  {
    ParseRender(v);
  }

  /** The column names of a version record, in order. */
  const Columns: seq<string> := ["major", "minor", "patch", "pre", "build"]

  /** The record a version decomposes into: the numbers as `i64` ints and
      the pre-release and build metadata as their raw strings. */
  function VersionRecord(v: Version): seq<(string, Value)>
  {
    [ ("major", Int(U64ToI64(v.major))),
      ("minor", Int(U64ToI64(v.minor))),
      ("patch", Int(U64ToI64(v.patch))),
      ("pre", Str(v.pre)),
      ("build", Str(v.build)) ]
  }

  /** The five column names differ from one another. */
  lemma ColumnsDistinct()
    ensures forall i, j :: 0 <= i < j < |Columns| ==> Columns[i] != Columns[j]
  {
    assert Columns[0][..2] == "ma";
    assert Columns[1][..2] == "mi";
    assert Columns[2][..2] == "pa";
    assert Columns[3][..2] == "pr";
    assert Columns[4][..2] == "bu";
  }

  /** Looking a column up by name in a version record finds the entry at
      that column's position. */
  lemma ColumnLookup(v: Version, k: nat)
    requires k < |Columns|
    ensures Get(VersionRecord(v), Columns[k]) == Some(VersionRecord(v)[k].1)
  {
    ColumnsDistinct();
    GetFirst(VersionRecord(v), k, Columns[k]);
  }

  /** `follow_path_string`: one column of the version, by name. */
  function FollowPathString(v: Version, col: string): (r: Result<Value, Error>)
    ensures r.Ok? <==> col in Columns
    ensures r.Ok? ==> Get(VersionRecord(v), col) == Some(r.value)
    ensures r.Err? ==> r.error == CantFindColumn(col)
  {
    match col
    case "major" => GetFirst(VersionRecord(v), 0, col); Ok(Int(U64ToI64(v.major)))
    case "minor" => GetFirst(VersionRecord(v), 1, col); Ok(Int(U64ToI64(v.minor)))
    case "patch" => GetFirst(VersionRecord(v), 2, col); Ok(Int(U64ToI64(v.patch)))
    case "pre" => GetFirst(VersionRecord(v), 3, col); Ok(Str(v.pre))
    case "build" => GetFirst(VersionRecord(v), 4, col); Ok(Str(v.build))
    case _ => Err(CantFindColumn(col))
  }

  /** The five pushes, one after another, make the version record. */
  lemma RecordPushes(v: Version)
    ensures [] + [("major", Int(U64ToI64(v.major)))] + [("minor", Int(U64ToI64(v.minor)))]
               + [("patch", Int(U64ToI64(v.patch)))] + [("pre", Str(v.pre))] + [("build", Str(v.build))]
            == VersionRecord(v)
  {
  }

  /** `to_base_value`: builds the version record column by column. */
  method ToBaseValue(v: Version) returns (r: Value)
    ensures r == Record(VersionRecord(v))
    ensures |r.cols| == |Columns| && forall k :: 0 <= k < |Columns| ==> r.cols[k].0 == Columns[k]
    ensures forall col :: FollowPathString(v, col).Ok? ==> Get(r.cols, col) == Some(FollowPathString(v, col).value)
  {
    var record := new RecordBuilder();
    record.Push("major", Int(U64ToI64(v.major)));
    record.Push("minor", Int(U64ToI64(v.minor)));
    record.Push("patch", Int(U64ToI64(v.patch)));
    record.Push("pre", Str(v.pre));
    record.Push("build", Str(v.build));
    RecordPushes(v);
    r := Record(record.cols);
  }

  /** `partial_cmp`: compares with another version custom value under the
      version order `le`; anything else is unordered. */
  function PartialCmp(v: Version, other: Value, le: (Version, Version) -> bool): (r: Option<Ordering>)
    ensures r.None? <==> !other.VersionVal?
    ensures r.Some? ==> (r.value != Greater <==> le(v, other.version))
    ensures r.Some? ==> (r.value == Equal <==> le(v, other.version) && le(other.version, v))
  {
    match other
    case VersionVal(w) => Some(CompareBy(le, v, w))
    case _ => None
  }

  /** Under a total preorder, comparing two versions the other way round
      flips the answer. */
  lemma PartialCmpFlips(a: Version, b: Version, le: (Version, Version) -> bool)
    requires TotalPreorder(le)
    ensures PartialCmp(b, VersionVal(a), le) == Some(Flip(PartialCmp(a, VersionVal(b), le).value))
  {
    CompareByFlips(le, a, b);
  }
}
