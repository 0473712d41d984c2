# disGo dispatch core in Dafny

disGo runs a list of shell commands over a pool of SSH hosts. It launches
one `dispatch` goroutine per command. A dispatch tries the hosts in a random
order. Each try writes the remote output to a fresh attempt file
`cmd_<id>-attempt<seq>.log`. The first success is renamed to
`cmd_<id>-final.log` and the dispatch reports `true` on a shared completion
channel. A command whose hosts all fail reports `false`. Failing to create an
attempt file panics. `main` then receives exactly one result per command and
logs how many finished and failed.

The model has these parts:

- `Names`: renders the two artifact names. It proves them injective and
  disjoint through parsers that invert them.
- `Permutation`: the host order `rand.Perm` yields, as a precondition. It
  proves that such an order omits no host.
- `Files`: the working directory, as a class holding a map from name to
  content. It has `Create`, `Append` and `Rename`.
- `Completion`: the completion channel, as a class holding the bag of sent
  and not yet received messages.
- `Dispatch`: the closed-form effect of one dispatch. This is the host
  where the loop stops, the verdict, the attempts made, the final directory
  and the message sent. The method `Dispatch` is the loop of `dispatch`,
  proved to have exactly that effect.
- `DispatchFacts`: the properties of a dispatch, stated over that
  closed-form effect.
- `Fleet`: the launch loop and the collection loop of `main`, and the
  summary they produce.

Everything the dispatcher does not decide itself is an input (`Env`):

- the permutation drawn by `rand.Perm`;
- the outcome and output of the `ssh` process run for a (command, host) pair at each attempt; every try is a fresh process, so a host listed twice may answer differently each time;
- whether `os.Create` succeeds for a name;
- whether `os.Rename` succeeds for a pair of names.

## Model

| member | source | states |
|---|---|---|
| Names.Decimal | main.go:44 | `%v` of a non-negative int renders as a non-empty string of decimal digits, one digit exactly for values below 10 |
| Names.ValueOfDecimal | main.go:44 | reading the rendered digits back gives the number rendered |
| Names.SplitNumberOfDecimal | main.go:44 | a rendered number followed by a non-digit splits back into that number and the rest |
| Names.AttemptNameRoundTrip | main.go:44 | the attempt name `cmd_<id>-attempt<seq>.log` parses back to (id, seq) |
| Names.FinalNameRoundTrip | main.go:57 | the final name `cmd_<id>-final.log` parses back to id |
| Names.FinalNameIsNoAttemptName | main.go:44-57 | a final name never parses as an attempt name |
| Names.AttemptNameInjective | main.go:44 | two attempt names are equal iff their ids and attempt numbers are equal |
| Names.FinalNameInjective | main.go:57 | two final names are equal iff their ids are equal |
| Names.FinalNameNeverAttemptName | main.go:44-57 | no final name equals any attempt name of any command |
| Names.OwnersAreUnique | main.go:44-57 | a name is owned by at most one command id, so concurrent dispatches never share an artifact name |
| Names.AttemptNameOwned | main.go:44 | every attempt name of id is owned by id |
| Names.FinalNameOwned | main.go:57 | the final name of id is owned by id |
| Names.AttemptNames | main.go:44-45 | the first n attempt names include the name of every attempt below n |
| Names.AttemptNamesParse | main.go:44-45 | each of the first n attempt names of id parses back to id and a number below n |
| Names.AttemptNamesCount | main.go:44-45 | n attempts produce exactly n distinct names |
| Permutation.Covers | main.go:39-41 | a permutation of [0, n) lists every host index, so the loop can reach every host |
| Permutation.DistinctImageSize | main.go:39 | a sequence without repeats has as many distinct values as entries |
| Files.FileSystem.Create | main.go:46-50 | os.Create either fails and changes nothing, or creates the file empty, truncating an existing one |
| Files.FileSystem.Append | main.go:26-27 | the command's output is appended to the open attempt file |
| Files.FileSystem.Rename | main.go:58 | os.Rename either moves the content to the new name, replacing what was there, or fails and changes nothing |
| Completion.Channel.Send | main.go:63-68 | a send adds one message to the channel |
| Completion.Channel.Receive | main.go:124 | a receive takes one of the pending messages, any one, and removes it |
| Dispatch.StopFrom | main.go:41-55 | the step where the loop leaves: no step before it panics or succeeds, and the step itself does unless the hosts ran out |
| Dispatch.Ran | main.go:41-55 | the number of attempts that ran the command never exceeds the number of hosts |
| Dispatch.TracePrefix | main.go:41-45 | attempt k has number k, host hosts[order[k]], file cmd_<id>-attempt<k>.log and that host's outcome |
| Dispatch.WrittenKeys | main.go:44-46 | after n attempts the directory holds exactly the files it started with plus the first n attempt names |
| Dispatch.EndsAborted | main.go:46-50 | when os.Create fails at step k, the dispatch panics, ran k attempts, leaves the files written so far and sends nothing |
| Dispatch.EndsSucceeded | main.go:52-65 | when the command succeeds at step k, the dispatch succeeds after k+1 attempts, sends true, and promotes iff the rename succeeds |
| Dispatch.EndsExhausted | main.go:41-68 | when the hosts run out, every attempt ran, false is sent and nothing is renamed |
| Dispatch.Dispatch | main.go:37-69 | the loop has exactly the closed-form effect: its verdict, its attempts, the final directory and the message sent |
| DispatchFacts.WrittenAt | main.go:44-52 | after n attempts, attempt k's file exists and holds attempt k's output |
| DispatchFacts.WrittenElsewhere | main.go:44-52 | writing attempt files leaves every other name as it was |
| DispatchFacts.AttemptsFollowOrder | main.go:39-45 | hosts are tried in permutation order, each at most once, never more attempts than hosts; attempt numbers start at 0 and rise by one; attempt files are distinct |
| DispatchFacts.FailedBeforeStop | main.go:46-55 | every attempt before the stopping step created its file and failed |
| DispatchFacts.StopsAtFirstSuccess | main.go:52-65 | success is reported iff some attempt succeeded; that attempt is the last one and all earlier attempts failed |
| DispatchFacts.SucceedsIffSomeAttemptWorks | main.go:41-65 | when files can always be created, the dispatch never panics and succeeds iff one of its len(hosts) attempts succeeds |
| DispatchFacts.SucceedsIffSomeHostWorks | main.go:39-68 | when files can always be created and each host either always or never runs the command successfully, the command succeeds iff some host in the pool runs it successfully |
| DispatchFacts.ExhaustedFacts | main.go:41-68 | on exhaustion every host was tried and failed, exactly len(hosts) attempt files exist with their outputs, the final name is untouched, and false is sent |
| DispatchFacts.NoHosts | main.go:39-68 | with no hosts nothing is tried, no file is touched and false is sent |
| DispatchFacts.PromotedFacts | main.go:56-65 | after promotion the final file holds the successful output, its attempt file is gone, earlier attempt files remain, the directory's names are as stated, and true is sent |
| DispatchFacts.RenameFailureDegraded | main.go:58-65 | a failed rename still reports true; the output stays under the attempt name and the final name is untouched |
| DispatchFacts.CreateFailureAborts | main.go:46-50 | a failed os.Create aborts before the command runs on that host: earlier attempts all failed, the failing name is not created, no final file appears and nothing is sent |
| DispatchFacts.OnlyOwnNamesTouched | main.go:44-58 | a dispatch changes no name that its command does not own |
| DispatchFacts.WrittenLocal | main.go:44-52 | what the attempt writes leave at a name depends on the starting directory only at that name |
| DispatchFacts.FinalFilesLocal | main.go:44-58 | what a dispatch leaves at a name depends on the starting directory only at that name |
| DispatchFacts.DispatchesCommute | main.go:116-117 | whole dispatches of two different commands commute on the working directory: run one after the other in either order, they leave the same files |
| Fleet.Reported | main.go:116-117 | the results reported by the first n commands when none of them panics, one per command |
| Fleet.AbortedStaysAborted | main.go:49 | once some dispatch has panicked, the process has panicked |
| Fleet.TrueFalseAddUp | main.go:128 | every result is true or false, so the successes and failures add up to the number of results |
| Fleet.Collect | main.go:121-127 | exactly numCommands receives empty the channel and count the true results, whatever order they arrive in |
| Fleet.LaunchAll | main.go:115-118 | one dispatch per command with id equal to its index; unless one panics, exactly one result per command is pending afterwards |
| Fleet.RunFleet | main.go:115-128 | the summary exists iff no dispatch panicked; then FINISHED counts the true results, FAILED the false ones, and FINISHED + FAILED = TOTAL = len(commands) |

## Left out

- tryCommand (main.go:24-33): spawning `ssh` is an oracle `Env.exec` from (command, host, attempt number) to (success, output). The connect timeout and the exit status are behind that oracle.
- rand.Seed and rand.Perm (main.go:39, 96): the host order is an input, constrained to be a permutation of the host indices.
- os.Create and os.Rename errors: whether they succeed is an input per name. Other file-system effects are not modelled: permissions, disk space, other writers.
- Goroutines: the dispatches run one after the other. `DispatchesCommute` shows that the order of whole dispatches does not matter to the directory. Interleavings of steps from different dispatches are not modelled, for example command 1's Create, Append or Rename landing between command 0's Create and Rename. `OnlyOwnNamesTouched` shows that a whole dispatch touches only names its own command owns.
- Fleet.LaunchAll: after a panic, the dispatches already running in other goroutines are not modelled. The model stops launching and `RunFleet` returns no summary, because the process halts.
- The completion channel is unbuffered in the source, so a send blocks until main receives it. The model keeps pending messages in a bag, and a receive takes any one of them. Which message is received is thus arbitrary, as with concurrent senders. A receive on an empty channel blocks; here it has a precondition instead.
- Files.FileSystem.Append: the output that `ssh` streams into the file is one append of the whole output. The file handle from os.Create is never closed in the source, and that is not modelled.
- readLines, the flags and the `help` argument (main.go:71-112): reading the command and host lists is outside this model. The lists are inputs. The source keeps blank lines as empty commands and hosts (main.go:79-80); the model accepts any strings.
- debug and log output (main.go:18-21 and every `debug` call): not modelled. The counts logged at main.go:128 are the `Summary` returned by `RunFleet`.
- Go's `int` is 32 or 64 bits wide, depending on the platform. Ids and attempt numbers are unbounded `nat` here: ids stay below len(commands) and attempt numbers below len(hosts), so no overflow is lost.
