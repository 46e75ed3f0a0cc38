/** `semver to-record` (src/commands/to_record.rs): a version, or a string
    holding one, decomposed into a record. */
module ToRecord {
  import opened Wrappers
  import opened Casts
  import opened SemVer
  import opened ShellValues
  import opened VersionValue

  /** Converts the input and pushes the five columns one by one. */
  method Run(input: Value) returns (r: Result<Value, Error>)
    ensures TryFromValue(input).Err? ==> r == Err(TryFromValue(input).error)
    ensures TryFromValue(input).Ok? ==> r == Ok(Record(VersionRecord(TryFromValue(input).value)))
  {
    var converted := TryFromValue(input);
    if converted.Err? {
      return Err(converted.error);
    }
    var version := converted.value;
    var record := new RecordBuilder();
    record.Push("major", Int(U64ToI64(version.major)));
    record.Push("minor", Int(U64ToI64(version.minor)));
    record.Push("patch", Int(U64ToI64(version.patch)));
    record.Push("pre", Str(version.pre));
    record.Push("build", Str(version.build));
    RecordPushes(version);
    r := Ok(Record(record.cols));
  }
}
