# nu_plugin_semver, modelled in Dafny

`nu_plugin_semver` is a plugin for the Nushell shell. It adds a version
custom value and a handful of `semver` commands. This project models the
plugin's core:

- **The version value** (`VersionValue`). It comes from a shell value:
  - a version custom value is taken as it is;
  - a string is parsed;
  - anything else is refused.

  The value supports:
  - `bump_major`;
  - decomposition into a five-column record;
  - lookup of one column by name;
  - comparison with another value.
- **`semver to-record`**: decomposes a version into that record. It pushes
  the five columns one by one.
- **`semver from-record`**: builds the version back from such a record. It
  reads the columns in a fixed order and reports the first failure.
- **`semver bump`**: the bump of a version to a level. An
  `--ignore-errors` flag is meant to return the input unchanged when it
  cannot be bumped, but as written the flag has no effect (see
  "Findings").
- **`semver sort`**: converts a list, sorts it stably in place, and
  reverses it in place with `--reverse`.
- **The plugin's top-level help text**, built by a loop.

Where the code is imperative, the model is imperative too:
- the record under construction is a class with a `Push` method;
- the sort is an in-place insertion sort on an `array`, and the reverse is
  an in-place swap loop;
- the help text is a `for` loop over the signatures.

Each method is proved against a specification function, and the
properties are proved about that function.

The `semver` crate is a library the plugin calls. It supplies parsing,
the validation of pre-release and build identifiers, display, and the
order of versions. It is not part of this model. In its place:
- `SemVer` defines versions, their text form and a parser after the
  grammar of Semantic Versioning 2.0.0:
  - section 2 for the numbers;
  - section 9 for pre-release identifiers;
  - section 10 for build metadata.

  Parsing and rendering are proved to be inverse in both directions.
- `SemVerOrder` defines precedence after section 11. It is proved to be a
  total preorder.

The sort and `partial_cmp` take the version order as a parameter `le`.
Every property of the sort is proved for any total preorder. The example
of `semver sort` is proved under section 11 precedence.

Files:
- `casts.dfy`: `u64`/`i64` and the `as` casts, as arithmetic modulo 2^64.
- `text.dfy`: splitting a string on a character.
- `decimal.dfy`: decimal digits.
- `semver.dfy`, `precedence.dfy`: the stand-ins for the crate.
- `values.dfy`: shell values, errors and the record builder.
- `version.dfy`: the version value.
- `orders.dfy`: orderings and total preorders.
- `to_record.dfy`, `from_record.dfy`, `bump.dfy`, `sort.dfy`, `stable_sort.dfy`, `sort_example.dfy`: the commands.
- `plugin.dfy`: the help text.

`src/plugin.rs` also keeps older copies of the four commands: `from_record`
at lines 17-56, `to_record` at 58-73, `bump` at 75-105 and `sort` at
107-123. Except for `from_record`'s use of `as_string` (see "Left out"),
they are the same code as the commands, and the same members model them.

Where a command's example and its code disagree, the model follows the
code. The example of `semver to-record` shows the three numbers as
strings, but the code pushes them as ints.

## Model

| member | source | states |
|---|---|---|
| VersionValue.BumpMajor | src/version.rs:11-19 | The result is strictly above the input in SemVer precedence. It renders as `<major + 1>.0.0`, so minor and patch are 0 and pre-release and build are empty. The caller must keep `major` below `u64::MAX`. |
| VersionValue.BumpMajorForgets | src/version.rs:11-19 | The result depends on the major number alone: two versions with the same major bump to the same version, with empty pre-release and build metadata. |
| VersionValue.TryFromValue | src/version.rs:25-55 | A version custom value converts to itself. Another custom value fails with CantConvert from "not a version". A string converts exactly when it parses, and the version then renders back to that very string; an unparsable string fails with IncorrectValue. Any other value fails with CantConvert naming its type. |
| VersionValue.RenderedConverts | src/version.rs:40-41 | The text of any version converts back to that version. |
| VersionValue.ColumnsDistinct | src/version.rs:69-74 | The five column names differ from one another. |
| VersionValue.ColumnLookup | src/version.rs:68-76 | Looking up the name of column k in a version record finds the k-th entry. |
| VersionValue.ToBaseValue | src/version.rs:68-76 | Returns the record with exactly five columns, named major, minor, patch, pre, build in that order. The numbers are cast to `i64` and pre/build are their raw strings. On every column it agrees with `follow_path_string`. |
| VersionValue.FollowPathString | src/version.rs:94-107 | Succeeds exactly for the five column names, giving what the version record holds under that name. Any other name fails with CantFindColumn carrying that name. |
| VersionValue.PartialCmp | src/version.rs:82-92 | None exactly when the other value is not a version. Otherwise the answer is not Greater exactly when `le` holds, and it is Equal exactly when the two versions are tied. |
| VersionValue.PartialCmpFlips | src/version.rs:82-92 | Under a total preorder, comparing the other way round gives the flipped ordering. |
| Casts.U64ToI64 | src/commands/to_record.rs:40-42 | `x as i64` is congruent to x modulo 2^64, and is negative exactly when x is above `i64::MAX`. |
| Casts.I64ToU64 | src/commands/from_record.rs:58-60 | `i as u64` is congruent to i modulo 2^64, and is i itself when i is not negative. |
| Casts.U64RoundTrip | src/commands/from_record.rs:58-60 | `(x as i64) as u64 == x` for every `u64`. |
| Casts.I64RoundTrip | src/commands/from_record.rs:58-60 | `(i as u64) as i64 == i` for every `i64`. |
| SemVer.ParseRender | src/commands/from_record.rs:79 | Parsing the text of a version gives that version back. |
| SemVer.Parse | src/version.rs:40-41 | A string that parses is exactly the text of the version it parses to: the grammar admits one spelling per version. |
| SemVer.Render | src/commands/from_record.rs:79 | The text of a version starts with a digit and holds only ASCII letters, digits, `-`, `.` and `+`. |
| SemVer.ParseNumber | src/version.rs:40 | A parsed number is canonical decimal (no leading zero), and it is the decimal text of its value. |
| SemVerOrder.PrecedenceFlips | src/commands/sort.rs:65 | Comparing two versions the other way round flips the answer. |
| SemVerOrder.PrecedenceTrans | src/commands/sort.rs:65 | Precedence is transitive. |
| SemVerOrder.PrecedenceIsTotalPreorder | src/commands/sort.rs:65 | Section 11 precedence is a total preorder, so it is a valid comparator for the sort. |
| SemVerOrder.BuildIgnored | src/commands/sort.rs:65 | Build metadata does not change section 11 precedence. |
| ShellValues.Get | src/commands/from_record.rs:47 | `Record::get`: no value exactly when no column has that name. A value found is the value of one of that name's columns. |
| ShellValues.GetFirst | src/commands/from_record.rs:47 | The value found is that of the first column of that name. |
| ShellValues.RecordBuilder.constructor | src/commands/to_record.rs:39 | `Record::new` is empty. |
| ShellValues.RecordBuilder.Push | src/commands/to_record.rs:40-44 | `push` appends one column at the end and changes nothing else. |
| ToRecord.Run | src/commands/to_record.rs:36-49 | A conversion error is returned unchanged and no record is built. Otherwise the result is the version record: the five columns in order, numbers as `i64` ints, pre and build as their raw strings. |
| FromRecord.GetValue | src/commands/from_record.rs:42-52 | Fails exactly when no column has the name, and then with CantFindColumn naming it. A value found belongs to that name. |
| FromRecord.NumberField | src/commands/from_record.rs:58-60 | Succeeds exactly when the column holds an int. The `u64` read back casts to that very int. |
| FromRecord.PreField | src/commands/from_record.rs:61-68 | Succeeds exactly when the "pre" column holds a string that is a valid pre-release, and gives that string. |
| FromRecord.BuildField | src/commands/from_record.rs:69-76 | Succeeds exactly when the "build" column holds a string that is valid build metadata, and gives that string. |
| FromRecord.BuildVersion | src/commands/from_record.rs:55-77 | A value that is not a record fails with CantConvert to "record". On success each of the five columns holds exactly what the built version's own record holds there. |
| FromRecord.Run | src/commands/from_record.rs:54-79 | Succeeds exactly when the version can be built, and then returns a string that parses to that version. Otherwise it returns the build's error. |
| FromRecord.FieldReading | src/commands/from_record.rs:57-77 | Reading column k succeeds exactly when the column is present and holds what it should. When it does not, the error is CantFindColumn, CantConvert naming the held type, or the "Incorrect value" error. |
| FromRecord.AllReadings | src/commands/from_record.rs:57-77 | Each of the five readings succeeds exactly when its column is right. |
| FromRecord.ConvertsIffAllFieldsOk | src/commands/from_record.rs:57-77 | A record converts exactly when all five columns are present and right. |
| FromRecord.FirstBadFieldDecides | src/commands/from_record.rs:57-77 | The columns are checked in the order major, minor, patch, pre, build. The first wrong one decides the error, whatever the later ones hold. |
| FromRecord.RecordRoundTrip | src/commands/from_record.rs:57-77 | from-record rebuilds exactly the version to-record decomposed, even for numbers above `i64::MAX`. |
| FromRecord.TextRoundTrip | src/commands/from_record.rs:79 | A version string sent through to-record and from-record comes back unchanged. |
| FromRecord.PlainRecord | src/commands/from_record.rs:19 | The record of 2.3.4 is `{major: 2, minor: 3, patch: 4, pre: "", build: ""}`. |
| FromRecord.PlainRender | src/commands/from_record.rs:22 | Version 2.3.4 renders as "2.3.4". |
| FromRecord.PlainRecordExample | src/commands/from_record.rs:19-22 | The record `{major: 2, minor: 3, patch: 4, pre: "", build: ""}` gives "2.3.4". |
| FromRecord.RenderOneTwoThree | src/commands/from_record.rs:25-28 | 1.2.3 renders as "1.2.3", and with build metadata "foo" as "1.2.3+foo". |
| FromRecord.ConvertOneTwoThree | src/commands/from_record.rs:25 | "1.2.3" converts to version 1.2.3. |
| FromRecord.UpdatedRecordRuns | src/commands/from_record.rs:25-28 | The record of 1.2.3 with "foo" in its build column gives "1.2.3+foo". |
| FromRecord.UpdateBuildExample | src/commands/from_record.rs:25-28 | `"1.2.3" \| semver to-record \| update build "foo" \| semver from-record` gives "1.2.3+foo". |
| BumpCommand.BumpBlock | src/commands/bump.rs:83-98 | The block runs in order: convert, read the level, parse the level, read the metadata, bump. It succeeds exactly when every step does, and then returns the bump of the converted version to the parsed level with the metadata as read. Otherwise the first failing step's error is returned: the conversion's, the level's, the level parser's labelled "Valid levels are: ...", the metadata's, or the bump's own error when only the bump fails. |
| BumpCommand.Block | src/commands/bump.rs:83-98 | The block with the version as a local that the bump replaces equals `BumpBlock`. |
| BumpCommand.Run | src/commands/bump.rs:81-109 | As written. A failure to read the `--ignore-errors` flag is returned. Otherwise a successful block gives the bumped version, and a failed block gives the block's error whatever the flag holds. In particular a string that is not a version fails with "Not a valid version" even with the flag. |
| BumpCommand.RunIgnoringErrors | src/commands/bump.rs:100-109 | As intended. A failure to read the flag is returned, and a successful block gives the bumped version. A failed block gives the unchanged input with the flag and the block's error without it, so with the flag the command never fails. |
| BumpCommand.NotAVersion | src/commands/bump.rs:84 | "abc" does not parse as a version. |
| BumpCommand.IgnoreErrorsExample | src/commands/bump.rs:81-109 | On `"abc" \| semver bump major --ignore-errors`, the code as written fails with "Not a valid version", while the intended command returns "abc". |
| BumpCommand.InvalidStringFailsFirst | src/commands/bump.rs:84 | A string that is not a version fails at conversion with IncorrectValue, whatever the level and metadata hold. |
| BumpCommand.WrongTypeFailsFirst | src/commands/bump.rs:84 | A value that is neither a version nor a string fails at conversion with CantConvert naming its type. |
| BumpCommand.AlphaBuildParts | src/commands/bump.rs:35 | "alpha.1" is a valid pre-release and "build" is valid build metadata. |
| BumpCommand.AlphaBuildText | src/commands/bump.rs:35 | Version 1.2.3-alpha.1+build renders as "1.2.3-alpha.1+build". |
| BumpCommand.AlphaBuildConverts | src/commands/bump.rs:35 | "1.2.3-alpha.1+build" converts to the version it spells. |
| BumpCommand.TwoText | src/commands/bump.rs:37 | Version 2.0.0 renders as "2.0.0". |
| BumpCommand.BumpsMajor | src/commands/bump.rs:83-98 | If the major level bumps as `bump_major` does, a major bump of any convertible input gives that version's `bump_major`. |
| BumpCommand.BumpMajorExample | src/commands/bump.rs:34-38 | `"1.2.3-alpha.1+build" \| semver bump major` gives 2.0.0, which renders as "2.0.0". Both pre-release and build are dropped. |
| SortCommand.ConvertAll | src/commands/sort.rs:61-64 | On success every element converts to the version at its position. On failure the error is that of some element all of whose predecessors convert, which is the first failing element. |
| SortCommand.ConvertAllEach | src/commands/sort.rs:61-64 | Conversely, a list whose elements all convert converts to exactly their versions. |
| SortCommand.ConvertAllOk | src/commands/sort.rs:61-64 | The list converts exactly when every element does. |
| SortCommand.WrapConverts | src/commands/sort.rs:69-72 | The output list converts back to exactly the versions it holds, in order. |
| SortCommand.Run | src/commands/sort.rs:58-73 | A flag error, a non-list input (CantConvert to "list") or a conversion error is returned as is. Otherwise the result is the stable ascending sort of the converted list, back to front when `--reverse` is set. |
| SortCommand.SortOutcome | src/commands/sort.rs:65-68 | For any total preorder the output is ascending, a permutation of the input, and stable: the elements tied with any x keep their input order. With `--reverse` it is still a permutation, and descending. |
| StableSort.InsertPermutes | src/commands/sort.rs:65 | Inserting adds exactly the one element. |
| StableSort.SortByPermutes | src/commands/sort.rs:65 | The sort returns a permutation of its input. |
| StableSort.InsertSorted | src/commands/sort.rs:65 | Inserting into an ascending sequence keeps it ascending. |
| StableSort.SortBySorted | src/commands/sort.rs:65 | The sort returns an ascending sequence. |
| StableSort.InsertStable | src/commands/sort.rs:65 | An inserted element comes after every element already tied with it. |
| StableSort.SortByStable | src/commands/sort.rs:65 | The sort is stable: for every x, the elements tied with x appear in their input order. |
| StableSort.Reversed | src/commands/sort.rs:66-68 | The reverse has the same length, and element i is element `n - 1 - i` of the input. |
| StableSort.ReversedPermutes | src/commands/sort.rs:66-68 | Reversing keeps the elements. |
| StableSort.ReversedDescending | src/commands/sort.rs:66-68 | An ascending sequence reversed is descending. |
| StableSort.ReversedTwice | src/commands/sort.rs:66-68 | Reversing twice gives the sequence back. |
| StableSort.InsertAt | src/commands/sort.rs:65 | The element goes in just after the last element at or below it: before it everything is unchanged, and after it comes everything above it. |
| StableSort.InsertInPlace | src/commands/sort.rs:65 | One in-place step: the prefix up to i becomes the insertion of `a[i]` into the sorted prefix, and the rest of the array is untouched. |
| StableSort.SortByPrefix | src/commands/sort.rs:65 | Sorting a prefix one element longer inserts that element into the sort of the shorter prefix. |
| StableSort.SortInPlace | src/commands/sort.rs:65 | `sort_by` in place: afterwards the array holds the stable sort of its old contents. |
| StableSort.ReverseInPlace | src/commands/sort.rs:66-68 | `reverse` in place: afterwards the array holds its old contents back to front. |
| SortExample.RenderedListConverts | src/commands/sort.rs:61-64 | A list of version strings converts to exactly the versions they spell. |
| SortExample.Idents | src/commands/sort.rs:38 | "alpha" and "beta" are alphanumeric identifiers, and "1" and "2" are numeric ones. |
| SortExample.PreReleases | src/commands/sort.rs:38 | "alpha.1", "alpha.2" and "beta.1" are pre-releases, each split into its two identifiers. |
| SortExample.IdentOrder | src/commands/sort.rs:38-47 | "alpha" is below "beta", and 1 is below 2. |
| SortExample.PreReleaseOrder | src/commands/sort.rs:38-47 | alpha.1 is below alpha.2, which is below beta.1. |
| SortExample.Comparisons | src/commands/sort.rs:38-47 | The precedence facts the sort of the example relies on, including that 2.3.4 is above its pre-releases. |
| SortExample.SortStep | src/commands/sort.rs:65 | One insertion step of the sort, at a known position. |
| SortExample.SortsFirstTwo | src/commands/sort.rs:38-47 | The first two elements of the example sort to 2.3.4, 3.2.1. |
| SortExample.SortsReleases | src/commands/sort.rs:38-47 | The three releases sort to 2.3.4, 3.2.1, 3.2.2. |
| SortExample.SortsBeta | src/commands/sort.rs:38-47 | With beta.1 added, it goes in front. |
| SortExample.SortsFirstAlpha | src/commands/sort.rs:38-47 | With alpha.1 added, it goes in front. |
| SortExample.SortsByComparisons | src/commands/sort.rs:38-47 | For any comparator that orders the six versions as precedence does, the list sorts to alpha.1, alpha.2, beta.1, 2.3.4, 3.2.1, 3.2.2. |
| SortExample.SortsInOrder | src/commands/sort.rs:38-47 | The six versions of the example sort under precedence to 2.3.4-alpha.1, 2.3.4-alpha.2, 2.3.4-beta.1, 2.3.4, 3.2.1, 3.2.2. |
| SortExample.CoreTexts | src/commands/sort.rs:38-47 | The numbers 2.3.4, 3.2.1 and 3.2.2 render as "2.3.4", "3.2.1" and "3.2.2". |
| SortExample.PreText | src/commands/sort.rs:38-47 | A pre-release of 2.3.4 with no build metadata renders as "2.3.4-" followed by its pre-release. |
| SortExample.ReleaseTexts | src/commands/sort.rs:38-47 | The three releases of the example render as "3.2.1", "2.3.4" and "3.2.2". |
| SortExample.PreTexts | src/commands/sort.rs:38-47 | The three pre-releases render as "2.3.4-beta.1", "2.3.4-alpha.1" and "2.3.4-alpha.2". |
| SortExample.RenderEach | src/commands/sort.rs:38-47 | Versions that render one by one as given strings render as that list of strings. |
| SortExample.InputTexts | src/commands/sort.rs:38 | The six versions, in input order, render as the example's input strings. |
| SortExample.OutputTexts | src/commands/sort.rs:40-47 | The six versions, in sorted order, render as the example's output strings. |
| SortExample.ConvertsTo | src/commands/sort.rs:61-64 | Strings that are the renderings of some versions convert to exactly those versions. |
| SortExample.ExampleOutcome | src/commands/sort.rs:38-47 | The six input strings convert, and under precedence their versions sort to versions that render as the six output strings, in order. |
| SortExample.WrappedTexts | src/commands/sort.rs:69-72 | Wrapped versions are version values that display as the renderings of those versions. |
| SortExample.ExampleRun | src/commands/sort.rs:38-47 | `["3.2.1", "2.3.4", "3.2.2", "2.3.4-beta.1", "2.3.4-alpha.1", "2.3.4-alpha.2"] \| semver sort` returns six version values. In order, they display as "2.3.4-alpha.1", "2.3.4-alpha.2", "2.3.4-beta.1", "2.3.4", "3.2.1", "3.2.2". |
| PluginHelp.GetBriefSubcommandHelp | src/plugin.rs:134-151 | Requires a non-empty signature list. Returns the header from `sigs[0]`, then one entry for each later signature in order. The loop skips index 0. |
| PluginHelp.EntriesGrow | src/plugin.rs:140-145 | Each later signature appends its own entry after the earlier ones. |
| PluginHelp.Usage | src/plugin.rs:11-14 | `usage` returns the help text as a string value. |
| PluginHelp.SplitTerminated | src/plugin.rs:134-151 | Newline-terminated lines split back into those lines. |
| PluginHelp.TerminatedAppend | src/plugin.rs:140-145 | The lines of two lists, written one after the other, are the lines of the combined list. |
| PluginHelp.EntriesTerminated | src/plugin.rs:140-145 | The appended entries are the entry lines, each ending in a newline. |
| PluginHelp.HeaderTail | src/plugin.rs:137-138 | The name line, a blank line and "Subcommands:" are three terminated lines. |
| PluginHelp.HeaderTerminated | src/plugin.rs:136-138 | The header is six terminated lines: usage, blank, "Usage:", `"  > " + name`, blank, "Subcommands:". |
| PluginHelp.EntrySingleLine | src/plugin.rs:144 | An entry holds no line break when the name and usage hold none. |
| PluginHelp.HelpLines | src/plugin.rs:134-151 | When no name or usage holds a line break, the help text read line by line is: the usage of `sigs[0]`; a blank line; "Usage:"; `"  > "` and the name of `sigs[0]`; a blank line; "Subcommands:"; then one entry `"  <name> - <usage>"` per signature from index 1 on, in order; then nothing after the final newline. So there are exactly `\|sigs\| - 1` entries, and `sigs[0]` has none. |

## Left out

- The `semver` crate is not part of this model. Its parser, its identifier
  validation and its `Display` are replaced by the SemVer 2.0.0 grammar in
  `SemVer`. Its order is replaced by the section 11 precedence in
  `SemVerOrder`. The crate's own limits, such as the length of
  identifiers, are not modelled.
- The comparator is a parameter. `sort_by` uses the crate's `Ord` on
  `semver::Version`, which also orders by build metadata, while section 11
  precedence ignores it. Every sort property is proved for any total
  preorder, so it also holds for the crate's order. The example uses no
  build metadata, so there both orders agree.
- `sort_by` is Rust's stable merge sort. It is modelled as insertion sort.
  Both are stable sorts, and under a total preorder any two stable sorts
  give the same output.
- `Level`, `VersionValue::bump` and `into_labeled_error` are not part of
  this model. The level type, the level parser and the bump are
  parameters of `BumpCommand`. The examples of the other levels
  (src/commands/bump.rs:39-68) therefore have no counterpart. Only the
  major bump is stated, and it is stated for any bump that agrees with
  `bump_major`.
- VersionValue.BumpMajor requires `major < u64::MAX`. At `u64::MAX`, the
  Rust `major + 1` panics in debug builds and wraps to 0 in release
  builds. The model covers neither case.
- Error messages keep only their fixed text. A `{e}` detail from the crate
  is dropped: "Not a valid version: {e}" and "Incorrect value for 'pre'
  field: {e}". The "Valid levels" error keeps the level parser's message
  as its label.
- Spans and the `call` argument are not modelled. Reading a flag,
  `--build-metadata` or the level argument is a `Result` parameter of the
  command.
- The shell's `Value` is reduced to the kinds the commands tell apart. The
  type name in a CantConvert error is the name the model gives each kind.
  A version produced by this plugin is recognised by a downcast, which is
  the `VersionVal` variant here. Typetag, serde and `clone_value` are not
  modelled.
- The older `from_record` method in src/plugin.rs reads `pre` and `build`
  with `as_string`, which also accepts some non-string values. It is
  modelled by `FromRecord.Run`, which accepts only strings.
- `bump` changes a local version in place. `BumpCommand.Block` models this
  by reassigning a local variable. `VersionValue::bump` is a parameter,
  so its own in-place update is not modelled.
- Only the header and the subcommand lines of the help text are modelled.
  The commented-out flags section at src/plugin.rs:147-149 is not code.
- The example of `semver sort` lists strings as its result. The command
  returns version values, which the shell displays as their text, so
  `SortExample.ExampleRun` states that each output value renders as the
  string the example shows.
- The `Err` arm of the final match of `semver bump` is never reached as
  the code is written. `BumpCommand.RunIgnoringErrors` models it as
  intended, and `BumpCommand.Run` models the code as written. The older
  `bump` method in src/plugin.rs has the same shape.
- `match_req`, `into-semver`, `parse`, custom-value registration, the
  plugin's entry point and command dispatch are outside the modelled core.

## Findings

| source | as written | input that shows it | evidently intended | confidence | as-written member | corrected member |
|---|---|---|---|---|---|---|
| src/commands/bump.rs:83-107 | The block is a plain `{ ... }` block, not a closure, so each `?` at lines 84-95 returns the error from `run` itself. `res` is always `Ok`, and the `--ignore-errors` arm at 102-107 is never reached. | `"abc" \| semver bump major --ignore-errors` fails with "Not a valid version" (BumpCommand.IgnoreErrorsExample) | With `--ignore-errors`, a value that cannot be bumped is returned unchanged, and the command never fails | not executed; follows from Rust's `?` semantics | BumpCommand.Run | BumpCommand.RunIgnoringErrors |
