/** The example of `semver sort` (src/commands/sort.rs, lines 38-47),
    worked through under SemVer 2.0.0 precedence. */
module SortExample {
  import opened Wrappers
  import opened Orders
  import opened Text
  import opened Decimal
  import opened SemVer
  import opened SemVerOrder
  import opened ShellValues
  import opened VersionValue
  import opened StableSort
  import opened SortCommand

  function RenderAll(vs: seq<Version>): (r: seq<string>)
    ensures |r| == |vs| && forall i :: 0 <= i < |vs| ==> r[i] == Render(vs[i])
  {
    seq(|vs|, i requires 0 <= i < |vs| => Render(vs[i]))
  }

  function Strs(ss: seq<string>): (r: seq<Value>)
    ensures |r| == |ss| && forall i :: 0 <= i < |ss| ==> r[i] == Str(ss[i])
  {
    seq(|ss|, i requires 0 <= i < |ss| => Str(ss[i]))
  }

  /** Versions rendered to strings convert back, one by one, to the same
      versions: the list of strings a user types goes through `semver sort`
      as the list of versions it denotes. */
  lemma RenderedListConverts(vs: seq<Version>)
    ensures ConvertAll(Strs(RenderAll(vs))) == Ok(vs)
  {
    var vals := Strs(RenderAll(vs));
    forall i | 0 <= i < |vs|
      ensures TryFromValue(vals[i]) == Ok(vs[i])
    {
      RenderedConverts(vs[i]);
    }
    ConvertAllEach(vals, vs);
  }

  /** The pre-release identifiers of the example. */
  lemma Idents()
    ensures IsPrereleaseIdent("alpha") && IsPrereleaseIdent("beta")
    ensures IsPrereleaseIdent("1") && IsPrereleaseIdent("2")
    ensures !AllDigits("alpha") && !AllDigits("beta") && AllDigits("1") && AllDigits("2")
    ensures ValueOf("1") == 1 && ValueOf("2") == 2
  {
    assert !IsDigit("alpha"[0]) && !IsDigit("beta"[0]);
    assert IsCanonical("1") && IsCanonical("2");
  }

  /** `alpha.1`, `alpha.2` and `beta.1`, split at their dots. */
  lemma PreReleases()
    ensures IsPrerelease("alpha" + "." + "1") && Split("alpha" + "." + "1", '.') == ["alpha", "1"]
    ensures IsPrerelease("alpha" + "." + "2") && Split("alpha" + "." + "2", '.') == ["alpha", "2"]
    ensures IsPrerelease("beta" + "." + "1") && Split("beta" + "." + "1", '.') == ["beta", "1"]
  {
    Idents();
    TwoPrereleaseIdents("alpha", "1");
    TwoPrereleaseIdents("alpha", "2");
    TwoPrereleaseIdents("beta", "1");
  }

  /** The identifiers of the example compared one by one. */
  lemma IdentOrder()
    ensures CmpIdent("alpha", "alpha") == Equal
    ensures CmpIdent("alpha", "beta") == Less
    ensures CmpIdent("1", "2") == Less
  {
    Idents();
    assert CmpText("alpha", "alpha") == Equal;
    assert CmpText("alpha", "beta") == Less;
  }

  /** The three pre-releases in precedence order. */
  lemma PreReleaseOrder()
    ensures CmpPre("alpha" + "." + "1", "alpha" + "." + "2") == Less
    ensures CmpPre("alpha" + "." + "2", "beta" + "." + "1") == Less
    ensures CmpPre("alpha" + "." + "1", "beta" + "." + "1") == Less
  {
    PreReleases();
    IdentOrder();
    assert CmpIdents(["alpha", "1"], ["alpha", "2"]) == CmpIdents(["1"], ["2"]);
    assert CmpIdents(["1"], ["2"]) == Less;
    assert CmpIdents(["alpha", "2"], ["beta", "1"]) == Less;
    assert CmpIdents(["alpha", "1"], ["beta", "1"]) == Less;
  }

  /** The comparisons insertion sort makes on the example. */
  lemma Comparisons(v321: Version, v234: Version, v322: Version, b1: Version, a1: Version, a2: Version)
    requires v321 == Version(3, 2, 1, [], []) && v234 == Version(2, 3, 4, [], []) && v322 == Version(3, 2, 2, [], [])
    requires b1.major == 2 && b1.minor == 3 && b1.patch == 4 && b1.pre == "beta" + "." + "1"
    requires a1.major == 2 && a1.minor == 3 && a1.patch == 4 && a1.pre == "alpha" + "." + "1"
    requires a2.major == 2 && a2.minor == 3 && a2.patch == 4 && a2.pre == "alpha" + "." + "2"
    ensures !PrecedenceLe(v321, v234) && PrecedenceLe(v321, v322)
    ensures !PrecedenceLe(v322, b1) && !PrecedenceLe(v321, b1) && !PrecedenceLe(v234, b1)
    ensures !PrecedenceLe(v322, a1) && !PrecedenceLe(v321, a1) && !PrecedenceLe(v234, a1) && !PrecedenceLe(b1, a1)
    ensures !PrecedenceLe(v322, a2) && !PrecedenceLe(v321, a2) && !PrecedenceLe(v234, a2) && !PrecedenceLe(b1, a2)
    ensures PrecedenceLe(a1, a2)
  {
    PreReleaseOrder();
    PrecedenceFlips(b1, a1);
    PrecedenceFlips(b1, a2);
  }

  /** One step of insertion sort: the next element `x` goes in at position
      `j` of the sorted prefix. */
  lemma SortStep(prefix: seq<Version>, x: Version, sorted: seq<Version>, j: nat, le: (Version, Version) -> bool)
    requires SortBy(prefix, le) == sorted
    requires j <= |sorted| && (j == 0 || le(sorted[j - 1], x))
    requires forall i :: j <= i < |sorted| ==> !le(sorted[i], x)
    ensures SortBy(prefix + [x], le) == sorted[..j] + [x] + sorted[j..]
  {
    assert (prefix + [x])[..|prefix|] == prefix;
    InsertAt(x, sorted, j, le);
  }

  /** The first two steps of insertion sort on the example. */
  lemma SortsFirstTwo(v321: Version, v234: Version, le: (Version, Version) -> bool)
    requires !le(v321, v234)
    ensures SortBy([v321, v234], le) == [v234, v321]
  {
    assert SortBy([v321], le) == [v321];
    SortStep([v321], v234, [v321], 0, le);
    assert [v321] + [v234] == [v321, v234];
  }

  /** The third step: the releases in order. */
  lemma SortsReleases(v321: Version, v234: Version, v322: Version, le: (Version, Version) -> bool)
    requires !le(v321, v234) && le(v321, v322)
    ensures SortBy([v321, v234, v322], le) == [v234, v321, v322]
  {
    SortsFirstTwo(v321, v234, le);
    SortStep([v321, v234], v322, [v234, v321], 2, le);
    assert [v321, v234] + [v322] == [v321, v234, v322];
  }

  /** The fourth step: the beta goes in front of the releases. */
  lemma SortsBeta(v321: Version, v234: Version, v322: Version, b1: Version, le: (Version, Version) -> bool)
    requires !le(v321, v234) && le(v321, v322)
    requires !le(v322, b1) && !le(v321, b1) && !le(v234, b1)
    ensures SortBy([v321, v234, v322, b1], le) == [b1, v234, v321, v322]
  {
    SortsReleases(v321, v234, v322, le);
    SortStep([v321, v234, v322], b1, [v234, v321, v322], 0, le);
    assert [v321, v234, v322] + [b1] == [v321, v234, v322, b1];
  }

  /** The fifth step: the first alpha goes in front of everything. */
  lemma SortsFirstAlpha(v321: Version, v234: Version, v322: Version, b1: Version, a1: Version,
                        le: (Version, Version) -> bool)
    requires !le(v321, v234) && le(v321, v322)
    requires !le(v322, b1) && !le(v321, b1) && !le(v234, b1)
    requires !le(v322, a1) && !le(v321, a1) && !le(v234, a1) && !le(b1, a1)
    ensures SortBy([v321, v234, v322, b1, a1], le) == [a1, b1, v234, v321, v322]
  {
    SortsBeta(v321, v234, v322, b1, le);
    SortStep([v321, v234, v322, b1], a1, [b1, v234, v321, v322], 0, le);
    assert [v321, v234, v322, b1] + [a1] == [v321, v234, v322, b1, a1];
  }

  /** Insertion sort on six versions that compare as those of the example. */
  lemma SortsByComparisons(v321: Version, v234: Version, v322: Version, b1: Version, a1: Version, a2: Version,
                           le: (Version, Version) -> bool)
    requires !le(v321, v234) && le(v321, v322)
    requires !le(v322, b1) && !le(v321, b1) && !le(v234, b1)
    requires !le(v322, a1) && !le(v321, a1) && !le(v234, a1) && !le(b1, a1)
    requires !le(v322, a2) && !le(v321, a2) && !le(v234, a2) && !le(b1, a2)
    requires le(a1, a2)
    ensures SortBy([v321, v234, v322, b1, a1, a2], le) == [a1, a2, b1, v234, v321, v322]
  {
    SortsFirstAlpha(v321, v234, v322, b1, a1, le);
    SortStep([v321, v234, v322, b1, a1], a2, [a1, b1, v234, v321, v322], 1, le);
    assert [v321, v234, v322, b1, a1] + [a2] == [v321, v234, v322, b1, a1, a2];
  }

  /** The list of the `semver sort` example, as versions, sorts to the order
      the example shows. */
  lemma SortsInOrder(v321: Version, v234: Version, v322: Version, b1: Version, a1: Version, a2: Version)
    requires v321 == Version(3, 2, 1, [], []) && v234 == Version(2, 3, 4, [], []) && v322 == Version(3, 2, 2, [], [])
    requires b1.major == 2 && b1.minor == 3 && b1.patch == 4 && b1.pre == "beta" + "." + "1"
    requires a1.major == 2 && a1.minor == 3 && a1.patch == 4 && a1.pre == "alpha" + "." + "1"
    requires a2.major == 2 && a2.minor == 3 && a2.patch == 4 && a2.pre == "alpha" + "." + "2"
    ensures SortBy([v321, v234, v322, b1, a1, a2], PrecedenceLe) == [a1, a2, b1, v234, v321, v322]
  {
    Comparisons(v321, v234, v322, b1, a1, a2);
    SortsByComparisons(v321, v234, v322, b1, a1, a2, PrecedenceLe);
  }

  /** The input and the output of the example, as strings. */
  const ExampleInput: seq<string> := ["3.2.1", "2.3.4", "3.2.2", "2.3.4-beta.1", "2.3.4-alpha.1", "2.3.4-alpha.2"]
  const ExampleOutput: seq<string> := ["2.3.4-alpha.1", "2.3.4-alpha.2", "2.3.4-beta.1", "2.3.4", "3.2.1", "3.2.2"]

  /** The numbers of the example, rendered. */
  lemma CoreTexts()
    ensures RenderCore(2, 3, 4) == "2.3.4" && RenderCore(3, 2, 1) == "3.2.1" && RenderCore(3, 2, 2) == "3.2.2"
  {
    assert ToDecimal(1) == "1" && ToDecimal(2) == "2" && ToDecimal(3) == "3" && ToDecimal(4) == "4";
  }

  /** A pre-release of 2.3.4 renders as "2.3.4-" and its pre-release. */
  lemma PreText(v: Version, text: string)
    requires v.major == 2 && v.minor == 3 && v.patch == 4 && v.pre != [] && v.build == []
    requires text == "2.3.4" + "-" + v.pre
    ensures Render(v) == text
  {
    CoreTexts();
  }

  /** The releases of the example, rendered. */
  lemma ReleaseTexts()
    ensures Render(Version(3, 2, 1, [], [])) == "3.2.1"
    ensures Render(Version(2, 3, 4, [], [])) == "2.3.4"
    ensures Render(Version(3, 2, 2, [], [])) == "3.2.2"
  {
    CoreTexts();
  }

  /** Versions that render one by one as the given strings render as the
      whole list of them. */
  lemma RenderEach(vs: seq<Version>, texts: seq<string>)
    requires |vs| == |texts| && forall i :: 0 <= i < |vs| ==> Render(vs[i]) == texts[i]
    ensures RenderAll(vs) == texts
  {
  }

  /** The six versions of the example render as its input strings. */
  lemma InputTexts(v321: Version, v234: Version, v322: Version, b1: Version, a1: Version, a2: Version)
    requires v321 == Version(3, 2, 1, [], []) && v234 == Version(2, 3, 4, [], []) && v322 == Version(3, 2, 2, [], [])
    requires Render(b1) == "2.3.4-beta.1" && Render(a1) == "2.3.4-alpha.1" && Render(a2) == "2.3.4-alpha.2"
    ensures RenderAll([v321, v234, v322, b1, a1, a2]) == ExampleInput
  {
    ReleaseTexts();
    RenderEach([v321, v234, v322, b1, a1, a2], ExampleInput);
  }

  /** Sorted, they render as its output strings. */
  lemma OutputTexts(v321: Version, v234: Version, v322: Version, b1: Version, a1: Version, a2: Version)
    requires v321 == Version(3, 2, 1, [], []) && v234 == Version(2, 3, 4, [], []) && v322 == Version(3, 2, 2, [], [])
    requires Render(b1) == "2.3.4-beta.1" && Render(a1) == "2.3.4-alpha.1" && Render(a2) == "2.3.4-alpha.2"
    ensures RenderAll([a1, a2, b1, v234, v321, v322]) == ExampleOutput
  {
    ReleaseTexts();
    RenderEach([a1, a2, b1, v234, v321, v322], ExampleOutput);
  }

  /** The pre-releases of the example, rendered. */
  lemma PreTexts(b1: Version, a1: Version, a2: Version)
    requires b1.major == 2 && b1.minor == 3 && b1.patch == 4 && b1.pre == "beta" + "." + "1" && b1.build == []
    requires a1.major == 2 && a1.minor == 3 && a1.patch == 4 && a1.pre == "alpha" + "." + "1" && a1.build == []
    requires a2.major == 2 && a2.minor == 3 && a2.patch == 4 && a2.pre == "alpha" + "." + "2" && a2.build == []
    ensures Render(b1) == "2.3.4-beta.1" && Render(a1) == "2.3.4-alpha.1" && Render(a2) == "2.3.4-alpha.2"
  {
    PreText(b1, "2.3.4-beta.1");
    PreText(a1, "2.3.4-alpha.1");
    PreText(a2, "2.3.4-alpha.2");
  }

  /** Strings that are the renderings of some versions convert to exactly
      those versions. */
  lemma ConvertsTo(vs: seq<Version>, texts: seq<string>)
    requires RenderAll(vs) == texts
    ensures ConvertAll(Strs(texts)) == Ok(vs)
  {
    RenderedListConverts(vs);
  }

  /** A string known to be a pre-release, as a pre-release value. */
  function AsPrerelease(s: string): (p: Prerelease)
    requires IsPrerelease(s)
    ensures p == s
  {
    s
  }

  /** The example's strings convert to six versions that sort to versions
      rendering as the example's output. */
  lemma ExampleOutcome() returns (sorted: seq<Version>)
    ensures ConvertAll(Strs(ExampleInput)).Ok?
    ensures SortBy(ConvertAll(Strs(ExampleInput)).value, PrecedenceLe) == sorted
    ensures RenderAll(sorted) == ExampleOutput
  {
    PreReleases();
    var alpha1 := AsPrerelease("alpha" + "." + "1");
    var alpha2 := AsPrerelease("alpha" + "." + "2");
    var beta1 := AsPrerelease("beta" + "." + "1");
    var v321, v234, v322 := Version(3, 2, 1, [], []), Version(2, 3, 4, [], []), Version(3, 2, 2, [], []);
    var b1 := Version(2, 3, 4, beta1, []);
    var a1 := Version(2, 3, 4, alpha1, []);
    var a2 := Version(2, 3, 4, alpha2, []);
    PreTexts(b1, a1, a2);
    InputTexts(v321, v234, v322, b1, a1, a2);
    OutputTexts(v321, v234, v322, b1, a1, a2);
    ConvertsTo([v321, v234, v322, b1, a1, a2], ExampleInput);
    SortsInOrder(v321, v234, v322, b1, a1, a2);
    sorted := [a1, a2, b1, v234, v321, v322];
  }

  /** Wrapped versions that render as the given strings display as them. */
  lemma WrappedTexts(vs: seq<Version>, texts: seq<string>)
    requires RenderAll(vs) == texts
    ensures |Wrap(vs)| == |texts|
    ensures forall i :: 0 <= i < |texts| ==> Wrap(vs)[i].VersionVal? && Render(Wrap(vs)[i].version) == texts[i]
  {
  }

  /** `["3.2.1", "2.3.4", "3.2.2", "2.3.4-beta.1", "2.3.4-alpha.1",
      "2.3.4-alpha.2"] | semver sort`: six version values that display, in
      order, as the strings the example shows. */
  method ExampleRun() returns (r: Result<Value, Error>)
    ensures r.Ok? && r.value.List? && |r.value.vals| == |ExampleOutput|
    ensures forall i :: 0 <= i < |ExampleOutput| ==>
              r.value.vals[i].VersionVal? && Render(r.value.vals[i].version) == ExampleOutput[i]
  {
    ghost var sorted := ExampleOutcome();
    r := Run(Ok(false), List(Strs(ExampleInput)), PrecedenceLe);
    WrappedTexts(sorted, ExampleOutput);
  }
}
