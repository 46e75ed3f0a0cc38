/** The host shell's values as the plugin sees them. A version that the
    plugin produced earlier comes back as a custom value; the Rust code
    recognises it by downcasting, which here is the `VersionVal` variant. */
module ShellValues {
  import opened Wrappers
  import opened Casts
  import opened SemVer

  datatype Value =
    | VersionVal(version: Version)   // a custom value holding a `VersionValue`
    | OtherCustom(typeName: string)  // a custom value of some other plugin type
    | Str(str: string)
    | Int(num: i64)
    | Record(cols: seq<(string, Value)>)
    | List(vals: seq<Value>)
    | Other(typeName: string)        // any other kind of value, by its type name

  datatype Error =
    | CantConvert(toType: string, fromType: string)
    | IncorrectValue(msg: string)
    | CantFindColumn(colName: string)
    | Labeled(labelText: string, msg: string)

  /** The name the shell gives a value's type in error messages. */
  function TypeName(v: Value): string
  {
    match v
    case VersionVal(_) => "version"
    case OtherCustom(name) => name
    case Str(_) => "string"
    case Int(_) => "int"
    case Record(_) => "record"
    case List(_) => "list"
    case Other(name) => name
  }

  function AsRecord(v: Value): (r: Result<seq<(string, Value)>, Error>)
    ensures v.Record? ==> r == Ok(v.cols)
    ensures !v.Record? ==> r == Err(CantConvert("record", TypeName(v)))
  {
    if v.Record? then Ok(v.cols) else Err(CantConvert("record", TypeName(v)))
  }

  function AsI64(v: Value): (r: Result<i64, Error>)
    ensures v.Int? ==> r == Ok(v.num)
    ensures !v.Int? ==> r == Err(CantConvert("int", TypeName(v)))
  {
    if v.Int? then Ok(v.num) else Err(CantConvert("int", TypeName(v)))
  }

  function AsStr(v: Value): (r: Result<string, Error>)
    ensures v.Str? ==> r == Ok(v.str)
    ensures !v.Str? ==> r == Err(CantConvert("string", TypeName(v)))
  {
    if v.Str? then Ok(v.str) else Err(CantConvert("string", TypeName(v)))
  }

  function AsList(v: Value): (r: Result<seq<Value>, Error>)
    ensures v.List? ==> r == Ok(v.vals)
    ensures !v.List? ==> r == Err(CantConvert("list", TypeName(v)))
  {
    if v.List? then Ok(v.vals) else Err(CantConvert("list", TypeName(v)))
  }

  /** `Record::get`: the value of the first column named `col`. */
  function Get(cols: seq<(string, Value)>, col: string): (r: Option<Value>)
    ensures r.None? <==> forall i :: 0 <= i < |cols| ==> cols[i].0 != col
    ensures r.Some? ==> (col, r.value) in cols
  {
    if cols == [] then None
    else if cols[0].0 == col then Some(cols[0].1)
    else Get(cols[1..], col)
  }

  /** `Get` finds the first column of that name, whatever comes after it. */
  lemma {:induction false} GetFirst(cols: seq<(string, Value)>, i: nat, col: string)
    requires i < |cols| && cols[i].0 == col
    requires forall j :: 0 <= j < i ==> cols[j].0 != col
    ensures Get(cols, col) == Some(cols[i].1)
  {
    if i > 0 {
      GetFirst(cols[1..], i - 1, col);
    }
  }

  /** A record under construction: `Record::new` and `Record::push`. */
  class RecordBuilder {
    var cols: seq<(string, Value)>

    constructor ()
      ensures cols == []
    {
      cols := [];
    }

    /** Appends a column at the end. */
    method Push(col: string, val: Value)
      modifies this
      ensures cols == old(cols) + [(col, val)]
    {
      cols := cols + [(col, val)];
    }
  }
}
