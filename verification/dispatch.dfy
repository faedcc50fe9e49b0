/** The dispatcher and the program's entry point. Every effect of `main` is
    either an input (the arguments, the inventory answer, the line typed at
    the prompt, whether the process image was replaced, how each child
    process ended) or part of the resulting `Outcome`. */
module Dispatch {
  import opened Ec2
  import opened Text
  import opened Args
  import opened Filter
  import opened Inventory
  import opened Choice

  /** The fixed command prefix: the privilege-elevation program and the
      arguments that switch to the service account and start the remote shell. */
  datatype Config = Config(cmd: string, args: seq<string>)

  const Default: Config := Config("/usr/bin/sudo", ["-u", "ec2-user", "ssh"])

  /** The environment a started program receives. */
  datatype Environment = EmptyEnvironment | Inherited

  /** A program start: the executable, its full argument vector (argv[0]
      included) and its environment. */
  datatype Invocation = Invocation(path: string, argv: seq<string>, env: Environment)

  /** The process-image replacement for one instance: the prefix, then the
      instance's private address as the one extra argument, with an empty
      environment. */
  function InteractiveInvocation(cfg: Config, i: Instance): (inv: Invocation)
    ensures |inv.argv| == |cfg.args| + 2
    ensures inv.argv[0] == inv.path == cfg.cmd
    ensures inv.argv[1..|inv.argv| - 1] == cfg.args
    ensures inv.argv[|inv.argv| - 1] == i.privateIp
    ensures inv.env == EmptyEnvironment
  {
    Invocation(cfg.cmd, [cfg.cmd] + cfg.args + [i.privateIp], EmptyEnvironment)
  }

  /** The child started for one instance of a batch: the same prefix and
      address, followed by the command tokens; the environment is inherited. */
  function BatchInvocation(cfg: Config, i: Instance, command: seq<string>): (inv: Invocation)
    ensures inv.argv == InteractiveInvocation(cfg, i).argv + command
    ensures inv.path == InteractiveInvocation(cfg, i).path
    ensures inv.env == Inherited
  {
    Invocation(cfg.cmd, [cfg.cmd] + cfg.args + [i.privateIp] + command, Inherited)
  }

  /** With the built-in prefix the interactive session is
      `sudo -u ec2-user ssh <address>`. */
  lemma DefaultInvocations(i: Instance, command: seq<string>)
    ensures InteractiveInvocation(Default, i).argv == ["/usr/bin/sudo", "-u", "ec2-user", "ssh", i.privateIp]
    ensures BatchInvocation(Default, i, command).argv[1..] == ["-u", "ec2-user", "ssh", i.privateIp] + command
  {
  }

  // ------------------------------------------------------------ dispatch table

  /** The decision `main` takes before any prompt. */
  datatype Decision =
    | Usage
    | NoMatch
    | Interactive(target: Instance)
    | Batch(targets: seq<Instance>)
    | Choose(candidates: seq<Instance>)

  /** `main`'s checks in source order: the argument count (program name
      included), no match, one match without a command, a command, otherwise
      the prompt. */
  function Decide(argc: nat, command: seq<string>, filtered: seq<Instance>): (d: Decision)
    ensures d == Usage <==> argc < 2
    ensures argc >= 2 && |filtered| == 0 ==> d == NoMatch
    ensures argc >= 2 && |filtered| == 1 && |command| == 0 ==> d == Interactive(filtered[0])
    ensures argc >= 2 && |filtered| >= 1 && |command| > 0 ==> d == Batch(filtered)
    ensures argc >= 2 && |filtered| >= 2 && |command| == 0 ==> d == Choose(filtered)
  {
    if argc < 2 then Usage
    else if |filtered| == 0 then NoMatch
    else if command == [] && |filtered| == 1 then Interactive(filtered[0])
    else if |command| > 0 then Batch(filtered)
    else Choose(filtered)
  }

  // -------------------------------------------------------------- batch loop

  /** How one child process ended: exit status zero, or an error (a non-zero
      status or a failure to start), whose text is reported. */
  datatype ChildResult = Succeeded | Failed(message: string)

  /** One round of the batch loop: the header name, the instance, the child
      started and how it ended. */
  datatype Attempt = Attempt(name: string, target: Instance, invocation: Invocation, result: ChildResult)

  /** The batch loop from position `k` on. `child(n)` is how the n-th child
      ends; the loop moves on whatever it is. */
  function BatchFrom(cfg: Config, command: seq<string>, filtered: seq<Instance>,
                     child: nat -> ChildResult, k: nat): (r: seq<Attempt>)
    requires k <= |filtered|
    ensures |r| == |filtered| - k
    ensures forall j :: 0 <= j < |r| ==>
              r[j].target == filtered[k + j] &&
              r[j].name == InstanceTag(filtered[k + j], "Name") &&
              r[j].invocation == BatchInvocation(cfg, filtered[k + j], command) &&
              r[j].result == child(k + j)
    decreases |filtered| - k
  {
    if k == |filtered| then []
    else
      var i := filtered[k];
      [Attempt(InstanceTag(i, "Name"), i, BatchInvocation(cfg, i, command), child(k))]
        + BatchFrom(cfg, command, filtered, child, k + 1)
  }

  /** The loop that collects the names listed before the confirmation prompt:
      each remaining instance's `Name` tag is appended to `names`. */
  function NamesLoop(filtered: seq<Instance>, names: seq<string>): (r: seq<string>)
    ensures |r| == |names| + |filtered|
    ensures r[..|names|] == names
    ensures forall j :: 0 <= j < |filtered| ==> r[|names| + j] == InstanceTag(filtered[j], "Name")
    decreases |filtered|
  {
    if |filtered| == 0 then names
    else
      var r := NamesLoop(filtered[1..], names + [InstanceTag(filtered[0], "Name")]);
      assert forall j :: 1 <= j < |filtered| ==> filtered[1..][j - 1] == filtered[j];
      r
  }

  /** The names listed before the confirmation prompt, in match order. */
  function Names(filtered: seq<Instance>): (names: seq<string>)
    ensures |names| == |filtered|
    ensures forall j :: 0 <= j < |filtered| ==> names[j] == InstanceTag(filtered[j], "Name")
  {
    var names := NamesLoop(filtered, []);
    assert forall j :: 0 <= j < |filtered| ==> names[0 + j] == names[j];
    names
  }

  /** The list confirmed before the batch and the headers printed during it
      agree: the `j`-th name listed is the header of the `j`-th child. */
  lemma NamesAreBatchHeaders(cfg: Config, command: seq<string>, filtered: seq<Instance>,
                             child: nat -> ChildResult)
    ensures var attempts := BatchFrom(cfg, command, filtered, child, 0);
            |Names(filtered)| == |attempts| &&
            forall j :: 0 <= j < |attempts| ==> Names(filtered)[j] == attempts[j].name
  {
  }

  /** Which instances are attempted, and with which programs, does not depend
      on how the children end: a failure never stops or reorders the batch. */
  lemma BatchIgnoresFailures(cfg: Config, command: seq<string>, filtered: seq<Instance>,
                             child1: nat -> ChildResult, child2: nat -> ChildResult)
    ensures var a1, a2 := BatchFrom(cfg, command, filtered, child1, 0), BatchFrom(cfg, command, filtered, child2, 0);
            |a1| == |a2| == |filtered| &&
            forall j :: 0 <= j < |a1| ==> a1[j].target == a2[j].target == filtered[j] &&
                                          a1[j].invocation == a2[j].invocation
  {
  }

  // -------------------------------------------------------------------- main

  /** Everything `main` gets from outside: its arguments (program name first),
      the inventory answer, the tag renderer, the line typed at the selection
      prompt, whether replacing the process image succeeds, and how each batch
      child ends. The line read by `confirm` is discarded there and so does
      not appear. */
  datatype World = World(
    osArgs: seq<string>,
    describe: DescribeResult,
    render: Tag -> string,
    choiceLine: string,
    execSucceeds: bool,
    child: nat -> ChildResult)

  /** How a run of the program ends. */
  datatype Outcome =
    | UsageError
    | InventoryError(message: string)
    | NoMatchFound
    | Replaced(invocation: Invocation)
    | ExecIgnored(invocation: Invocation)
    | BadInputError
    | BatchDone(names: seq<string>, attempts: seq<Attempt>)

  /** The exit status of the run; `None` when the process became another program. */
  function ExitStatus(o: Outcome): Option<int>
  {
    match o
    case UsageError => Some(1)
    case InventoryError(_) => Some(1)
    case BadInputError => Some(1)
    case Replaced(_) => None
    case NoMatchFound => Some(0)
    case ExecIgnored(_) => Some(0)
    case BatchDone(_, _) => Some(0)
  }

  /** `interactive`: the error of the process-image replacement is discarded,
      so a failed replacement lets `main` return normally, with status 0. */
  function Exec(cfg: Config, i: Instance, succeeds: bool): (o: Outcome)
    ensures o.Replaced? || o.ExecIgnored?
    ensures o.invocation == InteractiveInvocation(cfg, i)
    ensures ExitStatus(o) == if succeeds then None else Some(0)
  {
    if succeeds then Replaced(InteractiveInvocation(cfg, i)) else ExecIgnored(InteractiveInvocation(cfg, i))
  }

  /** The instances left after fetching and filtering (for a successful query). */
  function Filtered(w: World): seq<Instance>
    requires |w.osArgs| >= 2 && w.describe.Reservations?
  {
    FilterInstances(ParseArgs(w.osArgs[1..]).filters, Flatten(w.describe.reservations), w.render)
  }

  /** `main`. */
  function Run(cfg: Config, w: World): (o: Outcome)
    ensures o == UsageError <==> |w.osArgs| < 2
    ensures o.InventoryError? <==> |w.osArgs| >= 2 && w.describe.DescribeError?
    ensures o.BatchDone? ==> |o.names| == |o.attempts| && Args.Separator in w.osArgs[1..]
    ensures o.BadInputError? ==> |w.osArgs| >= 2 && w.describe.Reservations? && |Filtered(w)| >= 2
  {
    if |w.osArgs| < 2 then UsageError
    else
      var split := ParseArgs(w.osArgs[1..]);
      match w.describe
      case DescribeError(msg) => InventoryError(msg)
      case Reservations(rs) =>
        var filtered := FilterInstances(split.filters, Flatten(rs), w.render);
        match Decide(|w.osArgs|, split.command, filtered)
        case Usage => UsageError
        case NoMatch => NoMatchFound
        case Interactive(i) => Exec(cfg, i, w.execSucceeds)
        case Batch(targets) => BatchDone(Names(targets), BatchFrom(cfg, split.command, targets, w.child, 0))
        case Choose(candidates) =>
          match ResolveChoice(candidates, w.choiceLine)
          case BadInput => BadInputError
          case Picked(idx) => Exec(cfg, candidates[idx], w.execSucceeds)
  }

  /** Every instance left after filtering was fetched and matches the filter
      terms in the reference sense. */
  lemma FilteredAreFetchedMatches(w: World)
    requires |w.osArgs| >= 2 && w.describe.Reservations?
    ensures forall i :: i in Filtered(w) ==>
              i in Flatten(w.describe.reservations) &&
              Matches(i, ParseArgs(w.osArgs[1..]).filters, w.render)
  {
    var filters := ParseArgs(w.osArgs[1..]).filters;
    forall i | i in Filtered(w)
      ensures Matches(i, filters, w.render)
    {
      InstanceHasFilterIff(i, filters, w.render);
    }
  }

  /** Every program the run starts is addressed to an instance left after
      filtering: a replacement targets one of them and happens only without a
      command; a batch starts one child per instance, in order, with the
      command that followed `--`. */
  lemma RunTargetsOnlyMatches(cfg: Config, w: World)
    requires |w.osArgs| >= 2 && w.describe.Reservations?
    ensures var o := Run(cfg, w);
            (o.Replaced? || o.ExecIgnored?) ==>
               |ParseArgs(w.osArgs[1..]).command| == 0 &&
               exists k :: 0 <= k < |Filtered(w)| && o.invocation == InteractiveInvocation(cfg, Filtered(w)[k])
    ensures var o := Run(cfg, w);
            o.BatchDone? ==>
               |o.attempts| == |Filtered(w)| &&
               forall j :: 0 <= j < |o.attempts| ==>
                 o.attempts[j].target == Filtered(w)[j] &&
                 o.attempts[j].invocation == BatchInvocation(cfg, Filtered(w)[j], ParseArgs(w.osArgs[1..]).command)
  {
    var command := ParseArgs(w.osArgs[1..]).command;
    var filtered := Filtered(w);
    var o := Run(cfg, w);
    if o.Replaced? || o.ExecIgnored? {
      if |filtered| == 1 && |command| == 0 {
        assert o.invocation == InteractiveInvocation(cfg, filtered[0]);
      } else {
        var idx := ResolveChoice(filtered, w.choiceLine).index;
        assert o.invocation == InteractiveInvocation(cfg, filtered[idx]);
      }
    }
  }

  /** The dispatch table end to end, for a successful query and at least one
      argument: no match ends normally whatever the command; one match and no
      command replaces the process with a session to it; a command runs on every
      match; several matches and no command go through the prompt. */
  lemma RunDispatchTable(cfg: Config, w: World)
    requires |w.osArgs| >= 2 && w.describe.Reservations?
    ensures var o := Run(cfg, w);
            var command := ParseArgs(w.osArgs[1..]).command;
            var filtered := Filtered(w);
            (|filtered| == 0 ==> o == NoMatchFound) &&
            (|filtered| == 1 && |command| == 0 ==> o == Exec(cfg, filtered[0], w.execSucceeds)) &&
            (|filtered| >= 1 && |command| > 0 ==>
               o == BatchDone(Names(filtered), BatchFrom(cfg, command, filtered, w.child, 0))) &&
            (|filtered| >= 2 && |command| == 0 ==>
               o == match ResolveChoice(filtered, w.choiceLine)
                    case BadInput => BadInputError
                    case Picked(idx) => Exec(cfg, filtered[idx], w.execSucceeds))
  {
    var command := ParseArgs(w.osArgs[1..]).command;
    var filtered := Filtered(w);
    var o := Run(cfg, w);
    match Decide(|w.osArgs|, command, filtered)
    case NoMatch =>
      assert o == NoMatchFound;
    case Interactive(i) =>
      assert o == Exec(cfg, filtered[0], w.execSucceeds);
    case Batch(targets) =>
      assert o == BatchDone(Names(filtered), BatchFrom(cfg, command, filtered, w.child, 0));
    case Choose(candidates) =>
      assert candidates == filtered;
    case Usage =>
      assert false;
  }

  /** Without filter terms (`essh -- cmd`) nothing matches, so the run ends with
      "No match found" and status 0. */
  lemma NoFiltersFindsNothing(cfg: Config, w: World)
    requires |w.osArgs| >= 2 && w.describe.Reservations?
    requires w.osArgs[1] == Args.Separator
    ensures Run(cfg, w) == NoMatchFound
  {
    var args := w.osArgs[1..];
    assert args == [] + [Args.Separator] + args[1..];
    ParseArgsIsFirstSeparatorSplit([], args[1..]);
    var filtered := Filtered(w);
    if |filtered| > 0 {
      NothingToMatch(filtered[0], [], w.render);
    }
  }

  /** A batch ends with status 0 even when every child fails. */
  lemma BatchAlwaysExitsZero(cfg: Config, w: World)
    ensures Run(cfg, w).BatchDone? ==> ExitStatus(Run(cfg, w)) == Some(0)
  {
  }

  /** A session is started only by replacing the process image. When that
      replacement fails, `main` returns normally and the run exits 0, with the
      session that was attempted recorded. */
  lemma FailedReplacementExitsZero(cfg: Config, w: World)
    ensures Run(cfg, w).Replaced? ==> w.execSucceeds && ExitStatus(Run(cfg, w)) == None
    ensures Run(cfg, w).ExecIgnored? ==> !w.execSucceeds && ExitStatus(Run(cfg, w)) == Some(0)
  {
    if |w.osArgs| >= 2 && w.describe.Reservations? {
      var filtered := Filtered(w);
      RunDispatchTable(cfg, w);
      if |filtered| >= 2 && |ParseArgs(w.osArgs[1..]).command| == 0 {
        match ResolveChoice(filtered, w.choiceLine)
        case BadInput =>
        case Picked(idx) =>
          assert Run(cfg, w) == Exec(cfg, filtered[idx], w.execSucceeds);
      }
    }
  }

  /** Exit status 1 is reserved for the usage error, the failed query and a
      refused selection. */
  lemma ExitStatusOne(cfg: Config, w: World)
    ensures ExitStatus(Run(cfg, w)) == Some(1) <==>
              |w.osArgs| < 2 || Run(cfg, w).InventoryError? || Run(cfg, w).BadInputError?
  {
  }
}
