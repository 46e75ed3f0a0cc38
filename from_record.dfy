/** `semver from-record` (src/commands/from_record.rs): a record with the
    five version columns turned back into a version string. */
module FromRecord {
  import opened Wrappers
  import opened Casts
  import opened Decimal
  import opened SemVer
  import opened ShellValues
  import opened VersionValue

  /** The inner `get_value`: a column by name, or `CantFindColumn`. */
  function GetValue(r: seq<(string, Value)>, col: string): (res: Result<Value, Error>)
    ensures res.Err? <==> forall i :: 0 <= i < |r| ==> r[i].0 != col
    ensures res.Ok? ==> (col, res.value) in r
    ensures res.Err? ==> res.error == CantFindColumn(col)
  {
    match Get(r, col)
    case Some(v) => Ok(v)
    case None => Err(CantFindColumn(col))
  }

  function IncorrectField(col: string): Error
  {
    Labeled("Incorrect value", "Incorrect value for '" + col + "' field")
  }

  /** `Prerelease::from_str`, with its error relabelled for the `pre` column. */
  function ParsePreField(s: string): (r: Result<Prerelease, Error>)
    ensures r.Ok? <==> IsPrerelease(s)
    ensures r.Ok? ==> r.value == s
    ensures r.Err? ==> r.error == IncorrectField("pre")
  {
    if IsPrerelease(s) then Ok(s) else Err(IncorrectField("pre"))
  }

  /** `BuildMetadata::from_str`, with its error relabelled for the `build` column. */
  function ParseBuildField(s: string): (r: Result<BuildMetadata, Error>)
    ensures r.Ok? <==> IsBuildMetadata(s)
    ensures r.Ok? ==> r.value == s
    ensures r.Err? ==> r.error == IncorrectField("build")
  {
    if IsBuildMetadata(s) then Ok(s) else Err(IncorrectField("build"))
  }

  /** `get_value(r, col)?.as_i64()? as u64`. */
  function NumberField(cols: seq<(string, Value)>, col: string): (r: Result<u64, Error>)
    ensures r.Ok? <==> exists i :: Get(cols, col) == Some(Int(i))
    ensures r.Ok? ==> Get(cols, col) == Some(Int(U64ToI64(r.value)))
  {
    var v :- GetValue(cols, col);
    var i :- AsI64(v);
    I64RoundTrip(i);
    Ok(I64ToU64(i))
  }

  /** `get_value(r, "pre")?.as_str()?.parse()?`. */
  function PreField(cols: seq<(string, Value)>): (r: Result<Prerelease, Error>)
    ensures r.Ok? <==> exists s :: Get(cols, "pre") == Some(Str(s)) && IsPrerelease(s)
    ensures r.Ok? ==> Get(cols, "pre") == Some(Str(r.value))
  {
    var v :- GetValue(cols, "pre");
    var s :- AsStr(v);
    ParsePreField(s)
  }

  /** `get_value(r, "build")?.as_str()?.parse()?`. */
  function BuildField(cols: seq<(string, Value)>): (r: Result<BuildMetadata, Error>)
    ensures r.Ok? <==> exists s :: Get(cols, "build") == Some(Str(s)) && IsBuildMetadata(s)
    ensures r.Ok? ==> Get(cols, "build") == Some(Str(r.value))
  {
    var v :- GetValue(cols, "build");
    var s :- AsStr(v);
    ParseBuildField(s)
  }

  /** The struct literal of `run`: the fields are read in the order major,
      minor, patch, pre, build, and the first failure is the result. On
      success each of the five columns holds exactly what the version's own
      record holds there. */
  function BuildVersion(input: Value): (r: Result<Version, Error>)
    ensures !input.Record? ==> r == Err(CantConvert("record", TypeName(input)))
    ensures r.Ok? ==> Get(input.cols, "major") == Some(Int(U64ToI64(r.value.major)))
                      && Get(input.cols, "minor") == Some(Int(U64ToI64(r.value.minor)))
                      && Get(input.cols, "patch") == Some(Int(U64ToI64(r.value.patch)))
                      && Get(input.cols, "pre") == Some(Str(r.value.pre))
                      && Get(input.cols, "build") == Some(Str(r.value.build))
  {
    var cols :- AsRecord(input);
    var major :- NumberField(cols, "major");
    var minor :- NumberField(cols, "minor");
    var patch :- NumberField(cols, "patch");
    var pre :- PreField(cols);
    var build :- BuildField(cols);
    Ok(Version(major, minor, patch, pre, build))
  }

  /** Column `Columns[k]` is present and holds what from-record needs there:
      an int for the numbers, a valid pre-release or build string for the
      other two. */
  predicate FieldOk(cols: seq<(string, Value)>, k: nat)
    requires k < |Columns|
  {
    match Get(cols, Columns[k])
    case None => false
    case Some(v) =>
      if k < 3 then v.Int?
      else v.Str? && (if k == 3 then IsPrerelease(v.str) else IsBuildMetadata(v.str))
  }

  /** The error from-record reports for a column that is not `FieldOk`. */
  function FieldError(cols: seq<(string, Value)>, k: nat): Error
    requires k < |Columns| && !FieldOk(cols, k)
  {
    match Get(cols, Columns[k])
    case None => CantFindColumn(Columns[k])
    case Some(v) =>
      if k < 3 then CantConvert("int", TypeName(v))
      else if !v.Str? then CantConvert("string", TypeName(v))
      else IncorrectField(Columns[k])
  }

  /** `SemverFromRecord::run`: the rebuilt version, rendered as a string. */
  function Run(input: Value): (r: Result<Value, Error>)
    ensures r.Ok? <==> BuildVersion(input).Ok?
    ensures r.Ok? ==> r.value.Str? && Parse(r.value.str) == Some(BuildVersion(input).value)
    ensures r.Err? ==> r.error == BuildVersion(input).error
  {
    var version :- BuildVersion(input);
    ParseRender(version);
    Ok(Str(Render(version)))
  }

  /** The reading of one column succeeds exactly when it is `FieldOk`, and
      fails with `FieldError` otherwise. */
  lemma FieldReading(cols: seq<(string, Value)>, k: nat)
    requires k < |Columns|
    ensures k < 3 ==> (NumberField(cols, Columns[k]).Ok? <==> FieldOk(cols, k))
    ensures k < 3 && !FieldOk(cols, k) ==> NumberField(cols, Columns[k]) == Err(FieldError(cols, k))
    ensures k == 3 ==> (PreField(cols).Ok? <==> FieldOk(cols, k))
    ensures k == 3 && !FieldOk(cols, k) ==> PreField(cols) == Err(FieldError(cols, k))
    ensures k == 4 ==> (BuildField(cols).Ok? <==> FieldOk(cols, k))
    ensures k == 4 && !FieldOk(cols, k) ==> BuildField(cols) == Err(FieldError(cols, k))
  {
  }

  /** The five readings in order, each succeeding exactly when its column
      is `FieldOk`. */
  lemma AllReadings(cols: seq<(string, Value)>)
    ensures NumberField(cols, "major").Ok? <==> FieldOk(cols, 0)
    ensures NumberField(cols, "minor").Ok? <==> FieldOk(cols, 1)
    ensures NumberField(cols, "patch").Ok? <==> FieldOk(cols, 2)
    ensures PreField(cols).Ok? <==> FieldOk(cols, 3)
    ensures BuildField(cols).Ok? <==> FieldOk(cols, 4)
  {
    FieldReading(cols, 0);
    FieldReading(cols, 1);
    FieldReading(cols, 2);
    FieldReading(cols, 3);
    FieldReading(cols, 4);
  }

  /** A record converts exactly when all five columns are `FieldOk`. */
  lemma ConvertsIffAllFieldsOk(cols: seq<(string, Value)>)
    ensures BuildVersion(Record(cols)).Ok? <==> forall k :: 0 <= k < |Columns| ==> FieldOk(cols, k)
  {
    AllReadings(cols);
  }

  /** The first column that is missing or holds the wrong thing decides the
      error, whatever the columns after it hold. */
  lemma {:induction false} FirstBadFieldDecides(cols: seq<(string, Value)>, k: nat)
    requires k < |Columns|
    requires forall j :: 0 <= j < k ==> FieldOk(cols, j)
    requires !FieldOk(cols, k)
    ensures BuildVersion(Record(cols)) == Err(FieldError(cols, k))
  {
    if k == 0 {
      FieldReading(cols, 0);
    } else if k == 1 {
      FieldReading(cols, 0);
      FieldReading(cols, 1);
    } else if k == 2 {
      FieldReading(cols, 0);
      FieldReading(cols, 1);
      FieldReading(cols, 2);
    } else if k == 3 {
      FieldReading(cols, 0);
      FieldReading(cols, 1);
      FieldReading(cols, 2);
      FieldReading(cols, 3);
    } else {
      FieldReading(cols, 0);
      FieldReading(cols, 1);
      FieldReading(cols, 2);
      FieldReading(cols, 3);
      FieldReading(cols, 4);
    }
  }

  /** Decomposing a version into a record and building it back gives the
      same version: the `i64` to `u64` cast undoes the `u64` to `i64` one. */
  lemma RecordRoundTrip(v: Version)
    ensures BuildVersion(Record(VersionRecord(v))) == Ok(v)
  {
    ColumnLookup(v, 0);
    ColumnLookup(v, 1);
    ColumnLookup(v, 2);
    ColumnLookup(v, 3);
    ColumnLookup(v, 4);
    U64RoundTrip(v.major);
    U64RoundTrip(v.minor);
    U64RoundTrip(v.patch);
  }

  /** A version string sent through to-record and from-record comes back
      unchanged. */
  lemma TextRoundTrip(s: string)
    requires TryFromValue(Str(s)).Ok?
    ensures Run(Record(VersionRecord(TryFromValue(Str(s)).value))) == Ok(Str(s))
  {
    var v := TryFromValue(Str(s)).value;
    RecordRoundTrip(v);
  }

  /** The record of version 2.3.4, written out. */
  lemma PlainRecord()
    ensures VersionRecord(Version(2, 3, 4, [], [])) ==
              [("major", Int(2)), ("minor", Int(3)), ("patch", Int(4)), ("pre", Str("")), ("build", Str(""))]
  {
  }

  /** Version 2.3.4 renders as "2.3.4". */
  lemma PlainRender()
    ensures Render(Version(2, 3, 4, [], [])) == "2.3.4"
  {
    assert ToDecimal(2) == "2";
    assert ToDecimal(3) == "3";
    assert ToDecimal(4) == "4";
  }

  /** `{ major: 2, minor: 3, patch: 4, pre: "", build: "" }` gives "2.3.4". */
  lemma PlainRecordExample()
    ensures Run(Record([("major", Int(2)), ("minor", Int(3)), ("patch", Int(4)),
                        ("pre", Str("")), ("build", Str(""))])) == Ok(Str("2.3.4"))
  {
    PlainRecord();
    RecordRoundTrip(Version(2, 3, 4, [], []));
    PlainRender();
  }

  /** Version 1.2.3, with or without build metadata "foo", and how it renders. */
  lemma RenderOneTwoThree(v: Version)
    requires v.major == 1 && v.minor == 2 && v.patch == 3 && v.pre == []
    requires v.build == [] || v.build == "foo"
    ensures Render(v) == if v.build == [] then "1.2.3" else "1.2.3+foo"
  {
    assert ToDecimal(1) == "1" && ToDecimal(2) == "2" && ToDecimal(3) == "3";
    assert RenderCore(1, 2, 3) == "1.2.3";
  }

  /** "1.2.3" converts to version 1.2.3. */
  lemma ConvertOneTwoThree()
    ensures TryFromValue(Str("1.2.3")) == Ok(Version(1, 2, 3, [], []))
  {
    RenderOneTwoThree(Version(1, 2, 3, [], []));
    RenderedConverts(Version(1, 2, 3, [], []));
  }

  /** The record of 1.2.3 with "foo" in its build column gives "1.2.3+foo". */
  lemma UpdatedRecordRuns()
    ensures Run(Record(VersionRecord(Version(1, 2, 3, [], []))[4 := ("build", Str("foo"))]))
            == Ok(Str("1.2.3+foo"))
  {
    SingleBuildIdent("foo");
    var w := Version(1, 2, 3, [], "foo");
    RenderOneTwoThree(w);
    assert VersionRecord(Version(1, 2, 3, [], []))[4 := ("build", Str("foo"))] == VersionRecord(w);
    RecordRoundTrip(w);
  }

  /** `"1.2.3" | semver to-record | update build "foo" | semver from-record`
      gives "1.2.3+foo". */
  lemma UpdateBuildExample()
    ensures TryFromValue(Str("1.2.3")).Ok?
    ensures Run(Record(VersionRecord(TryFromValue(Str("1.2.3")).value)[4 := ("build", Str("foo"))]))
            == Ok(Str("1.2.3+foo"))
  {
    ConvertOneTwoThree();
    UpdatedRecordRuns();
  }
}
