/** The plugin's top-level help (src/plugin.rs): `get_brief_subcommand_help`
    writes the first signature as the command and every later one as a
    subcommand line, and `usage` returns that text as a string value. */
module PluginHelp {
  import opened Wrappers
  import opened Text
  import opened ShellValues

  /** The two parts of a command signature the help text uses. */
  datatype Signature = Signature(name: string, usage: string)

  /** Lines ending in a newline, one after another. */
  function Terminated(lines: seq<string>): string
  {
    if lines == [] then "" else lines[0] + "\n" + Terminated(lines[1..])
  }

  /** The opening of the help text, written from the first signature: its
      usage, a blank line, the usage section with its name, a blank line
      and the subcommands heading. */
  function Header(main: Signature): string
  {
    main.usage + "\n\n" + "Usage:\n  > " + main.name + "\n\n" + "Subcommands:\n"
  }

  /** The subcommand entry of one signature, without its newline. */
  function Entry(sub: Signature): string
  {
    "  " + sub.name + " - " + sub.usage
  }

  /** The subcommand entries, each ending in a newline, appended in order. */
  function Entries(subs: seq<Signature>): string
  {
    if subs == [] then "" else Entries(subs[..|subs| - 1]) + Entry(subs[|subs| - 1]) + "\n"
  }

  /** The whole help text for a non-empty list of signatures. */
  function HelpText(sigs: seq<Signature>): string
    requires |sigs| > 0
  {
    Header(sigs[0]) + Entries(sigs[1..])
  }

  /** `get_brief_subcommand_help`: writes the header from `sigs[0]`, then
      walks all signatures with their indices, skipping index 0 and
      appending one entry line for each of the others. */
  method GetBriefSubcommandHelp(sigs: seq<Signature>) returns (help: string)
    requires |sigs| > 0
    ensures help == HelpText(sigs)
  {
    help := "";
    help := help + sigs[0].usage + "\n\n";
    assert help == sigs[0].usage + "\n\n";
    help := help + "Usage:\n  > " + sigs[0].name + "\n\n";
    help := help + "Subcommands:\n";
    assert help == Header(sigs[0]);
    for i := 0 to |sigs|
      invariant i == 0 ==> help == Header(sigs[0])
      invariant i > 0 ==> help == Header(sigs[0]) + Entries(sigs[1..i])
    {
      if i == 0 {
        continue;
      }
      EntriesGrow(sigs, i);
      help := help + Entry(sigs[i]) + "\n";
    }
    assert sigs[1..|sigs|] == sigs[1..];
    if |sigs| == 1 {
      assert help == Header(sigs[0]) + Entries(sigs[1..]);
    }
  }

  /** One signature more: its entry is appended after the earlier ones. */
  lemma EntriesGrow(sigs: seq<Signature>, i: nat)
    requires 1 <= i < |sigs|
    ensures Entries(sigs[1..i + 1]) == Entries(sigs[1..i]) + Entry(sigs[i]) + "\n"
    ensures i == 1 ==> Entries(sigs[1..i]) == ""
  {
    assert sigs[1..i + 1][..i - 1] == sigs[1..i];
  }

  /** `SemverPlugin::usage`: the help text for the plugin's signatures, as
      a string value. */
  method Usage(sigs: seq<Signature>) returns (r: Result<Value, Error>)
    requires |sigs| > 0
    ensures r == Ok(Str(HelpText(sigs)))
  {
    var help := GetBriefSubcommandHelp(sigs);
    r := Ok(Str(help));
  }

  /** No name or usage holds a line break. */
  predicate SingleLine(sigs: seq<Signature>)
  {
    forall k :: 0 <= k < |sigs| ==> '\n' !in sigs[k].name && '\n' !in sigs[k].usage
  }

  /** The subcommand entries of the signatures, one per signature, in order. */
  function EntryLines(subs: seq<Signature>): (r: seq<string>)
    ensures |r| == |subs| && forall k :: 0 <= k < |subs| ==> r[k] == Entry(subs[k])
  {
    seq(|subs|, k requires 0 <= k < |subs| => Entry(subs[k]))
  }

  /** Appending regrouped. */
  lemma Regroup(a: string, b: string, c: string, d: string)
    ensures (a + b + c) + d == a + b + (c + d)
  {
  }

  /** Appending lists regrouped. */
  lemma Associate<T>(a: seq<T>, b: seq<T>, c: seq<T>)
    ensures a + (b + c) == (a + b) + c
  {
  }

  /** One line more in front: splitting puts it first. */
  lemma SplitTerminatedStep(lines: seq<string>, rest: string)
    requires lines != [] && '\n' !in lines[0]
    requires Split(Terminated(lines[1..]) + rest, '\n') == lines[1..] + Split(rest, '\n')
    ensures Split(Terminated(lines) + rest, '\n') == lines + Split(rest, '\n')
  {
    var t := Terminated(lines[1..]);
    Regroup(lines[0], "\n", t, rest);
    assert Terminated(lines) + rest == lines[0] + ['\n'] + (t + rest);
    SplitCons(lines[0], '\n', t + rest);
    Associate([lines[0]], lines[1..], Split(rest, '\n'));
    assert [lines[0]] + lines[1..] == lines;
  }

  /** Splitting newline-terminated lines followed by more text gives the
      lines, then the pieces of that text. */
  lemma {:induction false} SplitTerminated(lines: seq<string>, rest: string)
    requires forall k :: 0 <= k < |lines| ==> '\n' !in lines[k]
    ensures Split(Terminated(lines) + rest, '\n') == lines + Split(rest, '\n')
  {
    if lines != [] {
      assert '\n' !in lines[0];
      SplitTerminated(lines[1..], rest);
      SplitTerminatedStep(lines, rest);
    } else {
      assert Terminated(lines) + rest == rest;
    }
  }

  /** Terminated lines, one list after the other. */
  lemma {:induction false} TerminatedAppend(xs: seq<string>, ys: seq<string>)
    ensures Terminated(xs + ys) == Terminated(xs) + Terminated(ys)
  {
    if xs != [] {
      assert (xs + ys)[1..] == xs[1..] + ys;
      TerminatedAppend(xs[1..], ys);
    } else {
      assert xs + ys == ys;
    }
  }

  /** The entries are the entry lines, each terminated. */
  lemma {:induction false} EntriesTerminated(subs: seq<Signature>)
    ensures Entries(subs) == Terminated(EntryLines(subs))
  {
    if subs != [] {
      var init := subs[..|subs| - 1];
      EntriesTerminated(init);
      assert EntryLines(subs) == EntryLines(init) + [Entry(subs[|subs| - 1])];
      TerminatedAppend(EntryLines(init), [Entry(subs[|subs| - 1])]);
    }
  }

  /** The last three lines of the header, terminated. */
  lemma HeaderTail(name: string)
    ensures Terminated(["  > " + name, "", "Subcommands:"]) == "  > " + name + "\n\n" + "Subcommands:\n"
  {
    var lines := ["  > " + name, "", "Subcommands:"];
    assert Terminated(lines[2..]) == "Subcommands:\n";
    assert Terminated(lines[1..]) == "\n" + "Subcommands:\n";
  }

  /** The header is six terminated lines. */
  lemma HeaderTerminated(main: Signature)
    ensures Header(main) == Terminated([main.usage, "", "Usage:", "  > " + main.name, "", "Subcommands:"])
  {
    var lines := [main.usage, "", "Usage:", "  > " + main.name, "", "Subcommands:"];
    var tail := "  > " + main.name + "\n\n" + "Subcommands:\n";
    assert lines[3..] == ["  > " + main.name, "", "Subcommands:"];
    HeaderTail(main.name);
    assert Terminated(lines[2..]) == "Usage:\n" + tail;
    assert Terminated(lines[1..]) == "\n" + "Usage:\n" + tail;
    assert Terminated(lines) == main.usage + "\n" + ("\n" + "Usage:\n" + tail);
  }

  /** An entry holds no line break when the signature's name and usage hold none. */
  lemma EntrySingleLine(sub: Signature)
    requires '\n' !in sub.name && '\n' !in sub.usage
    ensures '\n' !in Entry(sub)
  {
  }

  /** Read line by line, the help text is the first signature's usage, a
      blank line, "Usage:", the first signature's name, a blank line,
      "Subcommands:", then one entry for each later signature in order, and
      nothing after the final newline. The first signature has no entry:
      there are exactly `|sigs| - 1` entry lines. */
  lemma HelpLines(sigs: seq<Signature>)
    requires |sigs| > 0 && SingleLine(sigs)
    ensures Split(HelpText(sigs), '\n') ==
              [sigs[0].usage, "", "Usage:", "  > " + sigs[0].name, "", "Subcommands:"] + EntryLines(sigs[1..]) + [""]
    ensures |Split(HelpText(sigs), '\n')| == 6 + (|sigs| - 1) + 1
  {
    var head := [sigs[0].usage, "", "Usage:", "  > " + sigs[0].name, "", "Subcommands:"];
    var entries := EntryLines(sigs[1..]);
    forall k | 0 <= k < |entries|
      ensures '\n' !in entries[k]
    {
      EntrySingleLine(sigs[1..][k]);
    }
    assert '\n' !in sigs[0].name && '\n' !in sigs[0].usage;
    assert '\n' !in "  > " + sigs[0].name;
    HeaderTerminated(sigs[0]);
    EntriesTerminated(sigs[1..]);
    TerminatedAppend(head, entries);
    SplitTerminated(head + entries, "");
    assert Terminated(head + entries) + "" == HelpText(sigs);
    SplitNone("", '\n');
  }
}
