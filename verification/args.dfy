/** The argument splitter: everything before the first `--` is a filter term,
    everything after it is the remote command. */
module Args {
  import opened Seqs

  /** The separator between filter terms and the command. */
  const Separator: string := "--"

  /** The two halves of the argument list. Go distinguishes a nil slice from
      an empty one; the tool only ever appends to these, so nil and empty
      coincide and both are the empty sequence here. */
  datatype Split = Split(filters: seq<string>, command: seq<string>)

  /** The command part of a split at position `n`: everything after the separator. */
  function After(args: seq<string>, n: nat): seq<string>
    requires n <= |args|
  {
    if n < |args| then args[n + 1..] else []
  }

  /** One pass of the splitting loop: `isCommand` records whether the
      separator has been seen, `acc` holds what has been collected so far. */
  function SplitLoop(args: seq<string>, isCommand: bool, acc: Split): (r: Split)
    ensures isCommand ==> r == Split(acc.filters, acc.command + args)
    ensures !isCommand ==>
              var n := FirstIndex(args, Separator);
              r == Split(acc.filters + args[..n], acc.command + After(args, n))
    decreases |args|
  {
    if |args| == 0 then acc
    else
      var a := args[0];
      if isCommand then
        assert acc.command + args == (acc.command + [a]) + args[1..];
        SplitLoop(args[1..], true, Split(acc.filters, acc.command + [a]))
      else if a == Separator then
        assert acc.filters + args[..0] == acc.filters;
        SplitLoop(args[1..], true, acc)
      else
        var n := FirstIndex(args, Separator);
        assert args[..n] == [a] + args[1..][..n - 1];
        assert After(args, n) == After(args[1..], n - 1);
        SplitLoop(args[1..], false, Split(acc.filters + [a], acc.command))
  }

  /** `ParseArgs`: splits the command-line arguments (program name removed). */
  function ParseArgs(args: seq<string>): (r: Split)
    ensures Separator !in r.filters
    ensures Separator !in args ==> r == Split(args, [])
    ensures Separator in args ==> args == r.filters + [Separator] + r.command
  {
    if |args| == 0 then Split([], [])
    else
      SplitAtSeparator(args);
      SplitLoop(args, false, Split([], []))
  }

  /** The loop started on the whole list splits it at its first separator:
      the filters are what comes before it, the command what comes after. */
  lemma SplitAtSeparator(args: seq<string>)
    ensures var r := SplitLoop(args, false, Split([], []));
            var n := FirstIndex(args, Separator);
            && r == Split(args[..n], After(args, n))
            && Separator !in r.filters
            && (Separator !in args ==> r == Split(args, []))
            && (Separator in args ==> args == r.filters + [Separator] + r.command)
  {
    var n := FirstIndex(args, Separator);
    assert SplitLoop(args, false, Split([], [])) == Split(args[..n], After(args, n)) by {
      assert [] + args[..n] == args[..n];
      assert [] + After(args, n) == After(args, n);
    }
    SplitAtFirst(args, Separator);
  }

  /** Every split of the arguments at a separator-free prefix is the one
      `ParseArgs` computes: filters are the prefix before the first `--` and the
      command is everything after it, including any later `--`. */
  lemma ParseArgsIsFirstSeparatorSplit(filters: seq<string>, command: seq<string>)
    requires Separator !in filters
    ensures ParseArgs(filters + [Separator] + command) == Split(filters, command)
  {
    var args := filters + [Separator] + command;
    SplitAtFirstIsUnique(args, Separator, filters, command);
    SplitAtSeparator(args);
  }

  /** The table of cases the repository's own test exercises. */
  lemma ParseArgsExamples()
    ensures ParseArgs([]) == Split([], [])
    ensures ParseArgs(["filter"]) == Split(["filter"], [])
    ensures ParseArgs(["filter", "another"]) == Split(["filter", "another"], [])
    ensures ParseArgs(["filter", "another", "--", "cmd"]) == Split(["filter", "another"], ["cmd"])
    ensures ParseArgs(["--", "cmd"]) == Split([], ["cmd"])
  {
    FiltersOnlyExample();
    FiltersAndCommandExample();
    CommandOnlyExample();
  }

  lemma FiltersOnlyExample()
    ensures ParseArgs(["filter"]) == Split(["filter"], [])
    ensures ParseArgs(["filter", "another"]) == Split(["filter", "another"], [])
  {
    assert "filter" != Separator && "another" != Separator;
  }

  lemma FiltersAndCommandExample()
    ensures ParseArgs(["filter", "another", "--", "cmd"]) == Split(["filter", "another"], ["cmd"])
  {
    var filters, command := ["filter", "another"], ["cmd"];
    assert filters + [Separator] + command == ["filter", "another", "--", "cmd"];
    assert Separator !in filters by {
      assert filters[0] != Separator && filters[1] != Separator;
    }
    ParseArgsIsFirstSeparatorSplit(filters, command);
  }

  lemma CommandOnlyExample()
    ensures ParseArgs(["--", "cmd"]) == Split([], ["cmd"])
  {
    ParseArgsIsFirstSeparatorSplit([], ["cmd"]);
    assert [] + [Separator] + ["cmd"] == ["--", "cmd"];
  }
}
