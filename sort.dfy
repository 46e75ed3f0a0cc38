/** `semver sort` (src/commands/sort.rs): a list of versions, or of strings
    holding them, sorted ascending, or descending with `--reverse`. */
module SortCommand {
  import opened Wrappers
  import opened Orders
  import opened SemVer
  import opened ShellValues
  import opened VersionValue
  import opened StableSort

  /** `.map(VersionValue::try_from).collect::<Result<Vec<_>, _>>()`: every
      element converted, or the error of the first that does not convert. */
  function ConvertAll(vals: seq<Value>): (r: Result<seq<Version>, Error>)
    ensures r.Ok? ==> |r.value| == |vals|
    ensures r.Ok? ==> forall i :: 0 <= i < |vals| ==> TryFromValue(vals[i]) == Ok(r.value[i])
    ensures r.Err? ==> exists i :: 0 <= i < |vals| && TryFromValue(vals[i]) == Err(r.error)
                                   && forall j :: 0 <= j < i ==> TryFromValue(vals[j]).Ok?
  {
    if vals == [] then Ok([])
    else
      var v :- TryFromValue(vals[0]);
      var rest :- ConvertAll(vals[1..]);
      Ok([v] + rest)
  }

  /** A list whose elements each convert converts to their versions: the
      converse of `ConvertAll`'s own guarantee. */
  lemma {:induction false} ConvertAllEach(vals: seq<Value>, vs: seq<Version>)
    requires |vals| == |vs| && forall i :: 0 <= i < |vals| ==> TryFromValue(vals[i]) == Ok(vs[i])
    ensures ConvertAll(vals) == Ok(vs)
  {
    if vals != [] {
      ConvertAllEach(vals[1..], vs[1..]);
      assert [vs[0]] + vs[1..] == vs;
    }
  }

  /** Every element converts exactly when `ConvertAll` succeeds. */
  lemma ConvertAllOk(vals: seq<Value>)
    ensures ConvertAll(vals).Ok? <==> forall i :: 0 <= i < |vals| ==> TryFromValue(vals[i]).Ok?
  {
    if ConvertAll(vals).Err? {
      var i :| 0 <= i < |vals| && TryFromValue(vals[i]) == Err(ConvertAll(vals).error);
    }
  }

  /** `into_value` on each version. */
  function Wrap(vs: seq<Version>): (r: seq<Value>)
    ensures |r| == |vs|
    ensures forall i :: 0 <= i < |vs| ==> r[i] == VersionVal(vs[i])
  {
    seq(|vs|, i requires 0 <= i < |vs| => VersionVal(vs[i]))
  }

  /** The output of `semver sort` converts back to exactly the versions it
      holds, so it can be piped into `semver sort` again. */
  lemma WrapConverts(vs: seq<Version>)
    ensures ConvertAll(Wrap(vs)) == Ok(vs)
  {
    ConvertAllEach(Wrap(vs), vs);
  }

  /** `SemverSort::run`: reads the reverse flag, converts the list, sorts it
      in place under `le`, reverses it in place if asked to, and wraps each
      version back into a value. */
  method Run(reverse: Result<bool, Error>, input: Value, le: (Version, Version) -> bool)
    returns (r: Result<Value, Error>)
    ensures reverse.Err? ==> r == Err(reverse.error)
    ensures reverse.Ok? && !input.List? ==> r == Err(CantConvert("list", TypeName(input)))
    ensures reverse.Ok? && input.List? && ConvertAll(input.vals).Err? ==>
              r == Err(ConvertAll(input.vals).error)
    ensures reverse.Ok? && input.List? && ConvertAll(input.vals).Ok? ==>
              var ascending := SortBy(ConvertAll(input.vals).value, le);
              r == Ok(List(Wrap(if reverse.value then Reversed(ascending) else ascending)))
  {
    var rev :- reverse;
    var values :- AsList(input);
    var versions :- ConvertAll(values);
    var a := new Version[|versions|](i requires 0 <= i < |versions| => versions[i]);
    assert a[..] == versions;
    SortInPlace(a, le);
    if rev {
      ReverseInPlace(a);
    }
    r := Ok(List(Wrap(a[..])));
  }

  /** What `semver sort` promises of a list it could convert: the output is
      a permutation of the converted input, ascending without `--reverse`
      and exactly that ascending order back to front with it; versions that
      compare equal keep their input order. */
  lemma SortOutcome(vs: seq<Version>, le: (Version, Version) -> bool)
    requires TotalPreorder(le)
    ensures SortedBy(SortBy(vs, le), le)
    ensures multiset(SortBy(vs, le)) == multiset(vs)
    ensures forall x :: Equivalents(SortBy(vs, le), x, le) == Equivalents(vs, x, le)
    ensures multiset(Reversed(SortBy(vs, le))) == multiset(vs)
    ensures forall i, j :: 0 <= i < j < |vs| ==> le(Reversed(SortBy(vs, le))[j], Reversed(SortBy(vs, le))[i])
  {
    SortBySorted(vs, le);
    SortByPermutes(vs, le);
    forall x
      ensures Equivalents(SortBy(vs, le), x, le) == Equivalents(vs, x, le)
    {
      SortByStable(vs, x, le);
    }
    ReversedPermutes(SortBy(vs, le));
    ReversedDescending(SortBy(vs, le), le);
  }
}
