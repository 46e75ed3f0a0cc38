/** The version value of Semantic Versioning 2.0.0 and its text form. The
    plugin gets these from the `semver` crate, which is not part of this
    model; they are defined here after the grammar of SemVer 2.0.0
    (section 2 for the numbers, section 9 for pre-release identifiers,
    section 10 for build metadata). */
module SemVer {
  import opened Wrappers
  import opened Casts
  import opened Text
  import opened Decimal

  /** Characters allowed in an identifier: ASCII alphanumerics and hyphen. */
  predicate IsIdentChar(c: char) {
    IsDigit(c) || 'a' <= c <= 'z' || 'A' <= c <= 'Z' || c == '-'
  }

  predicate IsBuildIdent(id: string) {
    |id| > 0 && forall i :: 0 <= i < |id| ==> IsIdentChar(id[i])
  }

  /** A pre-release identifier; a numeric one has no leading zero. */
  predicate IsPrereleaseIdent(id: string) {
    IsBuildIdent(id) && (AllDigits(id) ==> IsCanonical(id))
  }

  /** Empty (no pre-release) or dot-separated pre-release identifiers. */
  predicate IsPrerelease(s: string) {
    s == [] || forall k :: 0 <= k < |Split(s, '.')| ==> IsPrereleaseIdent(Split(s, '.')[k])
  }

  /** Empty (no build metadata) or dot-separated build identifiers. */
  predicate IsBuildMetadata(s: string) {
    s == [] || forall k :: 0 <= k < |Split(s, '.')| ==> IsBuildIdent(Split(s, '.')[k])
  }

  type Prerelease = s: string | IsPrerelease(s) witness []
  type BuildMetadata = s: string | IsBuildMetadata(s) witness []

  datatype Version = Version(major: u64, minor: u64, patch: u64, pre: Prerelease, build: BuildMetadata)

  /** The three numbers written in decimal, separated by dots. */
  function RenderCore(major: u64, minor: u64, patch: u64): string
  {
    ToDecimal(major) + "." + ToDecimal(minor) + "." + ToDecimal(patch)
  }

  /** The characters a version text is made of: identifier characters
      (which include `-`), dots and `+`. */
  predicate IsVersionText(s: string) {
    forall i :: 0 <= i < |s| ==> IsIdentChar(s[i]) || s[i] == '.' || s[i] == '+'
  }

  /** `major.minor.patch[-pre][+build]`, as the crate's `Display` writes it:
      a text that starts with a digit and holds nothing but identifier
      characters, dots and `+`. */
  function Render(v: Version): (r: string)
    ensures |r| > 0 && IsDigit(r[0])
    ensures IsVersionText(r)
  {
    var core := RenderCore(v.major, v.minor, v.patch);
    var preText := if v.pre == [] then "" else "-" + v.pre;
    var buildText := if v.build == [] then "" else "+" + v.build;
    CoreText(v.major, v.minor, v.patch);
    TaggedText('-', v.pre);
    TaggedText('+', v.build);
    AppendText(core, preText);
    AppendText(core + preText, buildText);
    core + preText + buildText
  }

  /** A numeric part: canonical decimal that fits in a `u64`. */
  function ParseNumber(s: string): (r: Option<u64>)
    ensures r.Some? ==> IsCanonical(s) && ToDecimal(r.value) == s
  {
    if IsCanonical(s) && ValueOf(s) < TWO_64 then
      CanonicalIsToDecimal(s);
      Some(ValueOf(s))
    else None
  }

  /** `major.minor.patch`: exactly three numeric parts. */
  function ParseCore(core: string): Option<(u64, u64, u64)>
  {
    var nums := Split(core, '.');
    if |nums| != 3 then None
    else
      var major :- ParseNumber(nums[0]);
      var minor :- ParseNumber(nums[1]);
      var patch :- ParseNumber(nums[2]);
      Some((major, minor, patch))
  }

  /** The text after `-`, if there was one: it must be a non-empty pre-release. */
  function ParsePrerelease(p: Option<string>): Option<Prerelease>
  {
    match p
    case None => Some([])
    case Some(s) => if s != [] && IsPrerelease(s) then Some(s) else None
  }

  /** The text after `+`, if there was one: it must be non-empty build metadata. */
  function ParseBuild(b: Option<string>): Option<BuildMetadata>
  {
    match b
    case None => Some([])
    case Some(s) => if s != [] && IsBuildMetadata(s) then Some(s) else None
  }

  /** `semver::Version::parse`: the version a string denotes, if it is one.
      The grammar admits exactly one spelling per version: a string that
      parses is the rendering of what it parses to. */
  function Parse(s: string): (r: Option<Version>)
    ensures r.Some? ==> Render(r.value) == s
  {
    var (rest, buildText) := CutAt(s, '+');
    var (core, preText) := CutAt(rest, '-');
    var nums :- ParseCore(core);
    var pre :- ParsePrerelease(preText);
    var build :- ParseBuild(buildText);
    CoreRenderParse(core);
    UndoCut(rest, '-', pre);
    UndoCut(s, '+', build);
    Some(Version(nums.0, nums.1, nums.2, pre, build))
  }

  /** An identifier holds no dot. */
  lemma IdentHoldsNoDot(id: string)
    requires IsBuildIdent(id)
    ensures '.' !in id
  {
    forall i | 0 <= i < |id|
      ensures id[i] != '.'
    {
      assert IsIdentChar(id[i]);
    }
  }

  /** A single identifier, with no dot, is build metadata on its own. */
  lemma SingleBuildIdent(id: string)
    requires IsBuildIdent(id)
    ensures IsBuildMetadata(id)
  {
    IdentHoldsNoDot(id);
    SplitNone(id, '.');
  }

  /** Two pre-release identifiers joined by a dot make a pre-release. */
  lemma TwoPrereleaseIdents(x: string, y: string)
    requires IsPrereleaseIdent(x) && IsPrereleaseIdent(y)
    ensures IsPrerelease(x + "." + y)
    ensures Split(x + "." + y, '.') == [x, y]
  {
    IdentHoldsNoDot(x);
    IdentHoldsNoDot(y);
    SplitCons(x, '.', y);
    SplitNone(y, '.');
  }

  /** Every character of build metadata is an identifier character or a
      dot. A pre-release is build metadata too, as every pre-release
      identifier is a build identifier. */
  lemma IdentListChars(s: string, ch: char)
    requires IsBuildMetadata(s) || IsPrerelease(s)
    requires ch in s && ch != '.'
    ensures IsIdentChar(ch)
  {
    if !IsIdentChar(ch) {
      forall k | 0 <= k < |Split(s, '.')|
        ensures ch !in Split(s, '.')[k]
      {
        var id := Split(s, '.')[k];
        assert IsBuildIdent(id);
        assert forall i :: 0 <= i < |id| ==> id[i] != ch;
      }
      NotInPieces(s, '.', ch);
    }
  }

  /** Two texts of version characters, one after the other. */
  lemma AppendText(a: string, b: string)
    requires IsVersionText(a) && IsVersionText(b)
    ensures IsVersionText(a + b)
  {
    forall i | 0 <= i < |a + b|
      ensures IsIdentChar((a + b)[i]) || (a + b)[i] == '.' || (a + b)[i] == '+'
    {
      if i >= |a| {
        assert (a + b)[i] == b[i - |a|];
      }
    }
  }

  /** A decimal numeral is made of version characters. */
  lemma DecimalText(n: u64)
    ensures |ToDecimal(n)| > 0 && IsDigit(ToDecimal(n)[0]) && IsVersionText(ToDecimal(n))
  {
    ToDecimalValue(n);
    var d := ToDecimal(n);
    forall i | 0 <= i < |d|
      ensures IsIdentChar(d[i])
    {
      assert IsDigit(d[i]);
    }
  }

  /** The rendered numbers start with a digit and are made of version
      characters. */
  lemma CoreText(major: u64, minor: u64, patch: u64)
    ensures |RenderCore(major, minor, patch)| > 0 && IsDigit(RenderCore(major, minor, patch)[0])
    ensures IsVersionText(RenderCore(major, minor, patch))
  {
    DecimalText(major);
    DecimalText(minor);
    DecimalText(patch);
    AppendText(ToDecimal(major), ".");
    AppendText(ToDecimal(major) + ".", ToDecimal(minor));
    AppendText(ToDecimal(major) + "." + ToDecimal(minor), ".");
    AppendText(ToDecimal(major) + "." + ToDecimal(minor) + ".", ToDecimal(patch));
  }

  /** A pre-release or build metadata behind its separator, or nothing when
      it is empty, is made of version characters. */
  lemma TaggedText(tag: char, s: string)
    requires tag == '-' || tag == '+'
    requires IsBuildMetadata(s) || IsPrerelease(s)
    ensures IsVersionText(if s == [] then "" else [tag] + s)
  {
    if s != [] {
      forall i | 0 <= i < |s|
        ensures IsIdentChar(s[i]) || s[i] == '.'
      {
        if s[i] != '.' {
          IdentListChars(s, s[i]);
        }
      }
      AppendText([tag], s);
    }
  }

  /** A run of digits holds none of the separators of the version grammar. */
  lemma DigitsHoldNoSeparator(s: string)
    requires AllDigits(s)
    ensures '.' !in s && '-' !in s && '+' !in s
  {
    forall i | 0 <= i < |s|
      ensures s[i] != '.' && s[i] != '-' && s[i] != '+'
    {
      assert IsDigit(s[i]);
    }
  }

  /** The rendered numbers hold neither `-` nor `+`. */
  lemma CoreChars(major: u64, minor: u64, patch: u64)
    ensures '-' !in RenderCore(major, minor, patch) && '+' !in RenderCore(major, minor, patch)
  {
    ToDecimalValue(major);
    ToDecimalValue(minor);
    ToDecimalValue(patch);
    DigitsHoldNoSeparator(ToDecimal(major));
    DigitsHoldNoSeparator(ToDecimal(minor));
    DigitsHoldNoSeparator(ToDecimal(patch));
  }

  /** The decimal numeral of a `u64` reads back as that number. */
  lemma NumberRoundTrip(n: u64)
    ensures ParseNumber(ToDecimal(n)) == Some(n)
  {
    ToDecimalValue(n);
  }

  /** The rendered numbers split at the dots into the three numerals. */
  lemma SplitCore(major: u64, minor: u64, patch: u64)
    ensures Split(RenderCore(major, minor, patch), '.') == [ToDecimal(major), ToDecimal(minor), ToDecimal(patch)]
  {
    var d0, d1, d2 := ToDecimal(major), ToDecimal(minor), ToDecimal(patch);
    ToDecimalValue(major);
    ToDecimalValue(minor);
    ToDecimalValue(patch);
    DigitsHoldNoSeparator(d0);
    DigitsHoldNoSeparator(d1);
    DigitsHoldNoSeparator(d2);
    var tail := d1 + ['.'] + d2;
    assert RenderCore(major, minor, patch) == d0 + ['.'] + tail;
    SplitCons(d0, '.', tail);
    SplitCons(d1, '.', d2);
    SplitNone(d2, '.');
  }

  /** The rendered numbers read back as themselves. */
  lemma CoreRoundTrip(major: u64, minor: u64, patch: u64)
    ensures ParseCore(RenderCore(major, minor, patch)) == Some((major, minor, patch))
  {
    SplitCore(major, minor, patch);
    NumberRoundTrip(major);
    NumberRoundTrip(minor);
    NumberRoundTrip(patch);
  }

  /** Parsing a rendered version gives the version back. */
  lemma ParseRender(v: Version)
    ensures Parse(Render(v)) == Some(v)
  {
    var core := RenderCore(v.major, v.minor, v.patch);
    CoreChars(v.major, v.minor, v.patch);
    CoreRoundTrip(v.major, v.minor, v.patch);
    var rest := core + (if v.pre == [] then "" else "-" + v.pre);
    assert '+' !in v.pre by {
      if '+' in v.pre {
        IdentListChars(v.pre, '+');
      }
    }
    assert '+' !in rest;
    var buildText: Option<string> := if v.build == [] then None else Some(v.build);
    var preText: Option<string> := if v.pre == [] then None else Some(v.pre);
    assert CutAt(Render(v), '+') == (rest, buildText) by {
      if v.build == [] {
        assert Render(v) == rest;
      } else {
        assert Render(v) == rest + ['+'] + v.build;
        CutAtFirst(rest, '+', v.build);
      }
    }
    assert CutAt(rest, '-') == (core, preText) by {
      if v.pre == [] {
        assert rest == core;
      } else {
        assert rest == core + ['-'] + v.pre;
        CutAtFirst(core, '-', v.pre);
      }
    }
  }

  /** Three parts joined by dots. */
  lemma JoinThree(parts: seq<string>)
    requires |parts| == 3
    ensures Join(parts, '.') == parts[0] + "." + parts[1] + "." + parts[2]
  {
    var tail := parts[1..];
    assert tail[1..] == [parts[2]];
    assert Join(tail[1..], '.') == parts[2];
    assert Join(tail, '.') == parts[1] + ['.'] + parts[2];
    assert Join(parts, '.') == parts[0] + ['.'] + (parts[1] + ['.'] + parts[2]);
  }

  /** Numbers that parse are the rendering of what they parse to. */
  lemma CoreRenderParse(core: string)
    requires ParseCore(core).Some?
    ensures var t := ParseCore(core).value; RenderCore(t.0, t.1, t.2) == core
  {
    var nums := Split(core, '.');
    var t := ParseCore(core).value;
    assert ParseNumber(nums[0]) == Some(t.0);
    assert ParseNumber(nums[1]) == Some(t.1);
    assert ParseNumber(nums[2]) == Some(t.2);
    JoinSplit(core, '.');
    JoinThree(nums);
  }

  /** Putting back what `CutAt` cut off, when that part was not empty. */
  lemma UndoCut(s: string, c: char, part: string)
    requires CutAt(s, c).1.None? ==> part == []
    requires CutAt(s, c).1.Some? ==> part == CutAt(s, c).1.value && part != []
    ensures CutAt(s, c).0 + (if part == [] then [] else [c] + part) == s
  {
  }
}
