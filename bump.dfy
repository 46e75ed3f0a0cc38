/** `semver bump` (src/commands/bump.rs): the input version bumped to the
    next version of the requested level. An `--ignore-errors` switch is
    meant to hand a value which cannot be bumped back unchanged; as the
    code is written it never does (see `Run` and `RunIgnoringErrors`).

    The bump levels and the bump itself (`Level` and `VersionValue::bump`)
    are not part of this model: the level type is the type parameter `L`,
    `parseLevel` is `str::parse::<Level>` and `bump` is the bump of a
    version to a level with optional build metadata, its error already
    turned into the command's error. */
module BumpCommand {
  import opened Wrappers
  import opened Casts
  import opened Decimal
  import opened Text
  import opened SemVer
  import opened ShellValues
  import opened VersionValue

  /** The message of the error for a level that does not parse. */
  const LevelsMessage := "Valid levels are: major, minor, patch, alpha, beta, rc"

  /** The block of `run`: convert the input, read the level and parse it,
      read the build metadata, bump. Each step runs only when the ones
      before it succeeded, and the first failure is the result; the build
      metadata reaches `bump` exactly as it was read. */
  function BumpBlock<L>(input: Value, level: Result<string, Error>, parseLevel: string -> Result<L, string>,
                        meta: Result<Option<string>, Error>,
                        bump: (Version, L, Option<string>) -> Result<Version, Error>): (r: Result<Version, Error>)
    ensures r.Ok? <==> TryFromValue(input).Ok? && level.Ok? && parseLevel(level.value).Ok? && meta.Ok?
                       && bump(TryFromValue(input).value, parseLevel(level.value).value, meta.value).Ok?
    ensures TryFromValue(input).Ok? && level.Ok? && parseLevel(level.value).Ok? && meta.Ok? ==>
              r == bump(TryFromValue(input).value, parseLevel(level.value).value, meta.value)
    ensures TryFromValue(input).Err? ==> r == Err(TryFromValue(input).error)
    ensures TryFromValue(input).Ok? && level.Err? ==> r == Err(level.error)
    ensures TryFromValue(input).Ok? && level.Ok? && parseLevel(level.value).Err? ==>
              r == Err(Labeled(parseLevel(level.value).error, LevelsMessage))
    ensures TryFromValue(input).Ok? && level.Ok? && parseLevel(level.value).Ok? && meta.Err? ==>
              r == Err(meta.error)
  {
    var version :- TryFromValue(input);
    var text :- level;
    var lvl :- match parseLevel(text)
               case Ok(l) => Ok(l)
               case Err(e) => Err(Labeled(e, LevelsMessage));
    var m :- meta;
    bump(version, lvl, m)
  }

  /** The block as the source runs it: `version` is a local that the bump
      replaces in place. */
  method Block<L>(input: Value, level: Result<string, Error>, parseLevel: string -> Result<L, string>,
                  meta: Result<Option<string>, Error>,
                  bump: (Version, L, Option<string>) -> Result<Version, Error>) returns (res: Result<Version, Error>)
    ensures res == BumpBlock(input, level, parseLevel, meta, bump)
  {
    var version :- TryFromValue(input);
    var text :- level;
    var parsed := parseLevel(text);
    if parsed.Err? {
      return Err(Labeled(parsed.error, LevelsMessage));
    }
    var m :- meta;
    version :- bump(version, parsed.value, m);
    res := Ok(version);
  }

  /** `SemverBump::run` as written. The `--ignore-errors` flag is read
      first. The block that follows is a plain block, not a closure, so each
      `?` inside it returns from `run` itself: a failing step is the
      command's error whatever the flag holds, and the `Err` arm of the
      final match is never reached. */
  method Run<L>(ignoreErrors: Result<bool, Error>, input: Value, level: Result<string, Error>,
                parseLevel: string -> Result<L, string>, meta: Result<Option<string>, Error>,
                bump: (Version, L, Option<string>) -> Result<Version, Error>) returns (r: Result<Value, Error>)
    ensures ignoreErrors.Err? ==> r == Err(ignoreErrors.error)
    ensures ignoreErrors.Ok? && BumpBlock(input, level, parseLevel, meta, bump).Ok? ==>
              r == Ok(VersionVal(BumpBlock(input, level, parseLevel, meta, bump).value))
    ensures ignoreErrors.Ok? && BumpBlock(input, level, parseLevel, meta, bump).Err? ==>
              r == Err(BumpBlock(input, level, parseLevel, meta, bump).error)
    ensures ignoreErrors.Ok? && input.Str? && Parse(input.str).None? ==>
              r == Err(IncorrectValue("Not a valid version"))
  {
    var ignore :- ignoreErrors;
    var version :- Block(input, level, parseLevel, meta, bump);
    r := Ok(VersionVal(version));
  }

  /** `SemverBump::run` as its final match evidently intends: a failure
      inside the block is reported without the flag and turned into the
      unchanged input with it; a success is the bumped version. A failure to
      read the flag itself is always reported. */
  method RunIgnoringErrors<L>(ignoreErrors: Result<bool, Error>, input: Value, level: Result<string, Error>,
                              parseLevel: string -> Result<L, string>, meta: Result<Option<string>, Error>,
                              bump: (Version, L, Option<string>) -> Result<Version, Error>)
    returns (r: Result<Value, Error>)
    ensures ignoreErrors.Err? ==> r == Err(ignoreErrors.error)
    ensures ignoreErrors.Ok? && BumpBlock(input, level, parseLevel, meta, bump).Ok? ==>
              r == Ok(VersionVal(BumpBlock(input, level, parseLevel, meta, bump).value))
    ensures ignoreErrors == Ok(true) && BumpBlock(input, level, parseLevel, meta, bump).Err? ==> r == Ok(input)
    ensures ignoreErrors == Ok(false) && BumpBlock(input, level, parseLevel, meta, bump).Err? ==>
              r == Err(BumpBlock(input, level, parseLevel, meta, bump).error)
    ensures ignoreErrors == Ok(true) ==> r.Ok?
  {
    var ignore :- ignoreErrors;
    var res := Block(input, level, parseLevel, meta, bump);
    match res
    case Ok(v) =>
      r := Ok(VersionVal(v));
    case Err(e) =>
      r := if ignore then Ok(input) else Err(e);
  }

  /** "abc" is not a version. */
  lemma NotAVersion()
    ensures Parse("abc").None?
  {
    SplitNone("abc", '.');
  }

  /** `"abc" | semver bump major --ignore-errors`: as written the command
      fails with "Not a valid version"; as intended it returns "abc". */
  method IgnoreErrorsExample<L>(parseLevel: string -> Result<L, string>,
                                bump: (Version, L, Option<string>) -> Result<Version, Error>)
    returns (asWritten: Result<Value, Error>, intended: Result<Value, Error>)
    ensures asWritten == Err(IncorrectValue("Not a valid version"))
    ensures intended == Ok(Str("abc"))
  {
    NotAVersion();
    asWritten := Run(Ok(true), Str("abc"), Ok("major"), parseLevel, Ok(None), bump);
    intended := RunIgnoringErrors(Ok(true), Str("abc"), Ok("major"), parseLevel, Ok(None), bump);
  }

  /** A string that is not a version fails at the conversion, before the
      level or the build metadata are looked at, whatever they hold. */
  lemma InvalidStringFailsFirst<L>(s: string, level: Result<string, Error>, parseLevel: string -> Result<L, string>,
                                   meta: Result<Option<string>, Error>,
                                   bump: (Version, L, Option<string>) -> Result<Version, Error>)
    requires Parse(s).None?
    ensures BumpBlock(Str(s), level, parseLevel, meta, bump) == Err(IncorrectValue("Not a valid version"))
  {
  }

  /** A value of a type that is neither a version nor a string is refused
      at the conversion, naming its type. */
  lemma WrongTypeFailsFirst<L>(input: Value, level: Result<string, Error>, parseLevel: string -> Result<L, string>,
                               meta: Result<Option<string>, Error>,
                               bump: (Version, L, Option<string>) -> Result<Version, Error>)
    requires input.Int? || input.Record? || input.List? || input.Other?
    ensures BumpBlock(input, level, parseLevel, meta, bump) == Err(CantConvert("version", TypeName(input)))
  {
  }

  /** "alpha.1" is a pre-release and "build" is build metadata. */
  lemma AlphaBuildParts()
    ensures IsPrerelease("alpha" + "." + "1") && IsBuildMetadata("build")
  {
    assert !IsDigit("alpha"[0]);
    assert IsCanonical("1");
    TwoPrereleaseIdents("alpha", "1");
    SingleBuildIdent("build");
  }

  /** Version 1.2.3-alpha.1+build renders as "1.2.3-alpha.1+build". */
  lemma AlphaBuildText(v: Version)
    requires v.major == 1 && v.minor == 2 && v.patch == 3
    requires v.pre == "alpha" + "." + "1" && v.build == "build"
    ensures Render(v) == "1.2.3-alpha.1+build"
  {
    assert RenderCore(1, 2, 3) == "1.2.3" by {
      assert ToDecimal(1) == "1" && ToDecimal(2) == "2" && ToDecimal(3) == "3";
    }
  }

  /** "1.2.3-alpha.1+build" converts to the version it spells. */
  lemma AlphaBuildConverts()
    ensures IsPrerelease("alpha" + "." + "1") && IsBuildMetadata("build")
    ensures TryFromValue(Str("1.2.3-alpha.1+build")) == Ok(Version(1, 2, 3, "alpha" + "." + "1", "build"))
  {
    AlphaBuildParts();
    var v := Version(1, 2, 3, "alpha" + "." + "1", "build");
    AlphaBuildText(v);
    RenderedConverts(v);
  }

  /** Version 2.0.0 renders as "2.0.0". */
  lemma TwoText()
    ensures Render(Version(2, 0, 0, [], [])) == "2.0.0"
  {
    assert ToDecimal(2) == "2" && ToDecimal(0) == "0";
  }

  /** A major bump of any input that converts gives that version's
      `bump_major`, when the major level bumps as `bump_major` does. */
  lemma BumpsMajor<L>(input: Value, major: L, parseLevel: string -> Result<L, string>,
                      bump: (Version, L, Option<string>) -> Result<Version, Error>)
    requires parseLevel("major") == Ok(major)
    requires TryFromValue(input).Ok? && TryFromValue(input).value.major < U64_MAX
    requires bump(TryFromValue(input).value, major, None) == Ok(BumpMajor(TryFromValue(input).value))
    ensures BumpBlock(input, Ok("major"), parseLevel, Ok(None), bump) == Ok(BumpMajor(TryFromValue(input).value))
  {
  }

  /** `"1.2.3-alpha.1+build" | semver bump major` gives "2.0.0" when the
      major level bumps as `bump_major` does: pre-release and build metadata
      both dropped. */
  lemma BumpMajorExample<L>(major: L, parseLevel: string -> Result<L, string>,
                            bump: (Version, L, Option<string>) -> Result<Version, Error>)
    requires parseLevel("major") == Ok(major)
    requires forall v: Version :: v.major < U64_MAX ==> bump(v, major, None) == Ok(BumpMajor(v))
    ensures BumpBlock(Str("1.2.3-alpha.1+build"), Ok("major"), parseLevel, Ok(None), bump) == Ok(Version(2, 0, 0, [], []))
    ensures Render(Version(2, 0, 0, [], [])) == "2.0.0"
  {
    AlphaBuildConverts();
    var v := Version(1, 2, 3, "alpha" + "." + "1", "build");
    assert bump(v, major, None) == Ok(BumpMajor(v));
    BumpsMajor(Str("1.2.3-alpha.1+build"), major, parseLevel, bump);
    TwoText();
  }
}
