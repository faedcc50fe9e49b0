# essh — a Dafny model of its decision logic

`essh` finds running cloud instances whose tags contain any of the filter
terms given on the command line. With one match and no command, it replaces
itself with `sudo -u ec2-user ssh <private address>`. With several matches
and no command, it prints a numbered menu and reads a choice. With a command
after `--`, it runs that command on every match, one after another.

This project models that logic as pure functions over sequences:

- `Args` is the argument splitter (`ParseArgs`).
- `Filter` holds the tag-substring filter and the `Name` tag lookup.
- `Inventory` is how the query's reservations become one instance list.
- `Choice` is the selection prompt, with the line typed back as an input.
- `Dispatch` has the dispatch table, the argument vectors, the batch loop and
  `main` as one function `Run` from the outside world to an `Outcome`.
- `Text` has the Go library functions the tool relies on: `strings.Contains`,
  `strings.TrimSpace`, `strconv.Atoi` and `%d`.
- `Seqs` has reversal, concatenation and subsequences.
- `Ec2` has the tag and instance records.

Effects are inputs. These are the command-line arguments, the inventory
answer, the tag renderer (the SDK's `GoString`), the line typed at the
prompt, whether `syscall.Exec` succeeds, and how each batch child ends.

`interactive` discards the error of `syscall.Exec` (main.go:155). When the
process image cannot be replaced, `main` returns after the call (main.go:61-63,
89-91) and the process exits with status 0, printing nothing. The model keeps
this: `Dispatch.Exec` then yields `ExecIgnored`, whose `ExitStatus` is 0. The
private address is dereferenced without a nil check (main.go:77, 155, 161), and
the model keeps the address as a plain string (see Left out).

## Model

| member | source | states |
|---|---|---|
| `Args.ParseArgs` | main.go:188-205 | Filters never contain `--`. Without `--` the filters are the whole input and the command is empty. Otherwise the input is `filters ++ ["--"] ++ command`. |
| `Args.SplitLoop` | main.go:193-202 | Once `--` is seen, the rest goes to the command. Before it, the loop appends the arguments up to the first `--` to the filters and the arguments after it to the command, and drops that `--`. |
| `Args.SplitAtSeparator` | main.go:188-205 | Started on the whole list, the loop returns the arguments before the first `--` as filters and those after it as the command. The filters are separator-free. Without `--` it returns `(args, [])`; otherwise `args == filters ++ ["--"] ++ command`. |
| `Seqs.SplitAtFirstIsUnique` | main.go:194-202 | A list can be written as `f ++ [x] ++ c` with no `x` in `f` in only one way: `f` ends at the first `x`. For the splitter, a later `--` therefore stays in the command. |
| `Seqs.FirstIndex` | main.go:194-199 | The position where the loop switches to the command: the first occurrence, or the end of the list when there is none. |
| `Args.ParseArgsIsFirstSeparatorSplit` | main.go:188-205 | For any separator-free `f` and any `c`, `ParseArgs(f ++ ["--"] ++ c)` returns exactly `(f, c)`. |
| `Args.ParseArgsExamples` | main_test.go:14-18 | The five cases of the repository's table test, with nil read as empty. |
| `Args.FiltersOnlyExample` | main_test.go:15-16 | `["filter"]` and `["filter","another"]` are all filters, with an empty command. |
| `Args.FiltersAndCommandExample` | main_test.go:17 | `["filter","another","--","cmd"]` gives filters `["filter","another"]` and command `["cmd"]`. |
| `Args.CommandOnlyExample` | main_test.go:18 | `["--","cmd"]` gives no filters and command `["cmd"]`. |
| `Text.ContainsIsSubstring` | main.go:137 | The left-to-right search in `strings.Contains` is true exactly when the filter occurs at some offset of the text. |
| `Text.EmptyIsContained` | main.go:137 | The empty filter is contained in every text. |
| `Text.TrimSpaceSpec` | main.go:166 | The trimmed line has no white space at either end. It is empty exactly when the line was all white space. |
| `Text.TrimSpacePadded` | main.go:166 | Trimming a trimmed non-empty string with white space on both sides gives back that string. |
| `Text.FormatNatDigits` | main.go:161 | The `%d` rendering of a natural number is a non-empty digit string whose value is the number. |
| `Text.FormatIntTrimmed` | main.go:161 | The `%d` rendering is non-empty and has no white space at its ends. |
| `Text.AtoiFormatInt` | main.go:170 | `Atoi` of the `%d` rendering of any integer gives the integer back. |
| `Filter.FilterInstances` | main.go:116-124 | The result is no longer than the input. Every kept instance is from the input and passes `instanceHasFilter`. |
| `Filter.TagsHasFilterIff` | main.go:135-142 | `tagsHasFilter` is true exactly when the filter is a substring of the rendered text of some tag. |
| `Filter.InstanceHasFilterIff` | main.go:126-133 | `instanceHasFilter` is true exactly when some filter is a substring of the rendered text of some tag. |
| `Filter.NothingToMatch` | main.go:126-142 | With no filters, or for an instance with no tags, there is no match. |
| `Filter.EmptyFilterMatchesTagged` | main.go:135-142 | A `""` filter matches every instance that has at least one tag, whatever the rendering. |
| `Filter.FilterIsSubsequence` | main.go:116-124 | The result is an order-preserving subsequence of the input. |
| `Filter.FilterKeepsExactlyMatches` | main.go:116-124 | Each matching instance is kept as often as it occurs in the input. Each non-matching one is dropped. |
| `Filter.FilterIdempotent` | main.go:116-124 | Filtering the result again with the same terms changes nothing. |
| `Filter.TagValueFirst` | main.go:144-151 | `instanceTag` returns the value of the first tag with the key. It returns `""` when no tag has the key, which is never an error. |
| `Inventory.FlattenFrom` | main.go:109-113 | Prepending each reservation in turn gives the remaining reservations reversed and concatenated, followed by what was built so far. |
| `Inventory.FlattenReverses` | main.go:109-113 | The fetched list is the reservations in reverse order, each keeping its internal order. Its length is the sum of their lengths, and it contains exactly their instances. |
| `Inventory.FlattenTwoReservations` | main.go:110-112 | With two reservations `a, b`, the result is `b ++ a`. |
| `Choice.MenuFrom` | main.go:160-162 | The printing loop, started at position `k`, prints one line per remaining candidate. Its `j`-th line is the menu line of candidate `k + j`. |
| `Choice.Menu` | main.go:160-162 | The loop started at the first candidate gives one menu line per candidate, in candidate order. Line `k` is `[k] <Name tag> <address>`. |
| `Choice.ResolveChoice` | main.go:165-175 | A chosen index is always in range. An all-white-space line picks 0. A line whose trimmed text parses to an in-range `n` picks `n`, whatever its spelling. "Bad input" happens exactly when the trimmed line is non-empty and does not parse to an index in range. |
| `Choice.Chosen` | main.go:167-175 | A chosen instance exists exactly when the choice succeeds. It is the candidate at the selected position. |
| `Choice.MenuRoundTrip` | main.go:160-175 | Menu line `k` starts with `[k`. Typing `k` back, with any surrounding white space, selects candidate `k`. |
| `Choice.OutOfRangeIsBadInput` | main.go:170-174 | A negative number, or one at least the number of candidates, ends in "Bad input". |
| `Choice.ChoiceExamples` | main.go:165-175 | With three candidates, an empty line picks the first and `2` picks the third. `99` is refused. |
| `Choice.BlankLineExample` | main.go:166-168 | A bare line feed picks the first candidate. |
| `Choice.TwoExample` | main.go:170-175 | With three candidates, `2` followed by a line feed picks the third. |
| `Choice.NinetyNineExample` | main.go:170-174 | With three candidates, `99` is "Bad input". |
| `Choice.SignedZeroPaddedExample` | main.go:166-175 | `Atoi` accepts a sign and leading zeros: with three candidates, ` +02` and a line feed picks the third. |
| `Dispatch.InteractiveInvocation` | main.go:153-156 | The exec path is the elevation command. The argv is that command, the fixed arguments, then the private address as the only extra argument. The environment is empty. |
| `Dispatch.BatchInvocation` | main.go:77-78 | A batch child runs the interactive argv followed by the command tokens, and inherits the environment. |
| `Dispatch.DefaultInvocations` | main.go:17-20 | With the built-in prefix, the session is `/usr/bin/sudo -u ec2-user ssh <address>`. |
| `Dispatch.Decide` | main.go:22-91 | Fewer than two process arguments give Usage. Then zero matches give NoMatch, whatever the command. One match and no command gives Interactive on it. A command with at least one match gives Batch on all matches in order. Two or more matches and no command give Choose. |
| `Dispatch.BatchFrom` | main.go:75-84 | There is one attempt per match, in match order. Each carries the match's Name tag, the batch argv for that match, and that child's own result. |
| `Dispatch.NamesLoop` | main.go:68-71 | The append loop keeps what was collected and adds the Name tag of each remaining instance, in order. |
| `Dispatch.Names` | main.go:68-71 | The loop started on an empty list gives the Name tags of the matches, one per match, in order. |
| `Dispatch.NamesAreBatchHeaders` | main.go:68-76 | The `j`-th name in the confirmation list is the header printed before the `j`-th batch child. |
| `Dispatch.Exec` | main.go:153-156 | `interactive` starts the interactive session for the instance. If the replacement succeeds there is no exit status. If it fails, the error is discarded and the run exits 0. |
| `Dispatch.FailedReplacementExitsZero` | main.go:61-91 | A run that replaced its process image had the replacement succeed. A run whose replacement failed exits 0. |
| `Dispatch.BatchIgnoresFailures` | main.go:75-84 | Which instances are attempted, and with which argv, does not depend on how any child ends. |
| `Dispatch.Run` | main.go:22-91 | Usage happens exactly when there are fewer than two process arguments. The inventory error happens exactly when the query fails. A batch only happens when `--` was given, with one attempt per listed name. "Bad input" needs at least two matches. |
| `Dispatch.FilteredAreFetchedMatches` | main.go:27-53 | Every instance left after filtering was fetched and has a filter term inside the rendered text of one of its tags. |
| `Dispatch.RunTargetsOnlyMatches` | main.go:55-90 | Every started program targets an instance left after filtering. A replacement targets one of them and happens only without a command. A batch starts one child per instance, in order, with the command after `--`. |
| `Dispatch.RunDispatchTable` | main.go:55-90 | `Run` follows the dispatch table end to end: no match, single interactive, batch on every match, and prompt then exec or "Bad input". |
| `Dispatch.NoFiltersFindsNothing` | main.go:27-58 | After a successful query, `essh -- cmd` has no filter terms, so it ends with "No match found". |
| `Dispatch.BatchAlwaysExitsZero` | main.go:75-85 | A batch run ends with status 0 even if every child failed. |
| `Dispatch.ExitStatusOne` | main.go:22-91 | Status 1 happens exactly for a usage error, a failed query, or a refused selection. |

## Left out

- The SDK session and the `DescribeInstances` call (main.go:94-107) are network I/O through a library outside this model. The query's answer, reservations or an error message, is the input `DescribeResult`.
- The text of `tag.GoString()` comes from the SDK. It is the parameter `render`, and nothing is assumed about its format.
- `syscall.Exec`, `exec.Command(...).Run()`, the stdin reads of `confirm` and `giveChoice`, printing, and `os.Exit` are process and terminal effects. Their results are inputs (`World`) and their effects are `Outcome` values. The message texts are not modelled.
- The confirmation line is read and thrown away by `confirm`. Cancelling with Ctrl+C is signal handling, which is not modelled.
- Go strings are byte strings; here `string` is a sequence of Unicode characters. Arguments, tag renderings and typed lines that are not valid UTF-8 cannot be represented. Byte-level `strings.Contains` agrees with `Text.Contains` only on valid UTF-8.
- `Text.TrimSpace` strips only ASCII white space (tab, line feed, vertical tab, form feed, carriage return, space). Go also strips U+0085, U+00A0 and the other Unicode space characters.
- `Text.Atoi` uses unbounded integers. Go's `strconv.Atoi` reports a range error outside the range of Go's `int`, whose width is the platform's word size. Both cases end in "Bad input", because such a number is never a valid menu index.
- Nil pointers are not modelled. These are tags whose `Key` or `Value` is nil, and instances with a nil private address. The Go code dereferences them and would panic. The model keeps them as plain strings.
- Slice aliasing is not modelled: `instances[:0]` in `filterInstances`, and `append` onto a reservation's backing array in `fetchInstances`. Only the resulting sequences are.
- The commented-out fixture (main.go:31-50) and the `String` pointer helper (main.go:184-186) have no behaviour to model.
