/**
 * The fleet coordinator, `main` in main.go:115-128: one dispatch per command,
 * all reporting on one completion channel, then exactly len(commands)
 * receives and a summary of how many commands finished and failed.
 *
 * The goroutines run here one after the other. Dispatches of different
 * commands touch disjoint names and commute (DispatchFacts.DispatchesCommute),
 * and the channel delivers their messages in any order.
 */
module Fleet {
  import opened Wrappers
  import opened Files
  import opened Completion
  import opened Dispatch

  /** The summary logged at main.go:128: FINISHED, FAILED and TOTAL. */
  datatype Summary = Summary(finished: nat, failed: nat, total: nat)

  /** Command i is dispatched with id i (main.go:116-117) and gets its own host order and environment. */
  predicate Launchable(commands: seq<string>, hosts: seq<string>, envs: seq<Env>) {
    |envs| == |commands|
    && forall i :: 0 <= i < |commands| ==> WellFormed(Job(i, commands[i], hosts), envs[i])
  }

  /** The completion results of the first n commands, in command order, when none of them panics. */
  function Reported(commands: seq<string>, hosts: seq<string>, envs: seq<Env>, n: nat): (r: seq<bool>)
    requires Launchable(commands, hosts, envs) && n <= |commands|
    ensures |r| == n
  {
    if n == 0 then []
    else Reported(commands, hosts, envs, n - 1) + [Verdict(Job(n - 1, commands[n - 1], hosts), envs[n - 1]) == Succeeded]
  }

  /** Some of the first n commands panics on a failed os.Create. */
  predicate AnyAborted(commands: seq<string>, hosts: seq<string>, envs: seq<Env>, n: nat)
    requires Launchable(commands, hosts, envs) && n <= |commands|
  {
    n > 0 && (AnyAborted(commands, hosts, envs, n - 1) || Verdict(Job(n - 1, commands[n - 1], hosts), envs[n - 1]) == Aborted)
  }

  lemma {:induction false} AbortedStaysAborted(commands: seq<string>, hosts: seq<string>, envs: seq<Env>, n: nat)
    requires Launchable(commands, hosts, envs) && n <= |commands|
    requires AnyAborted(commands, hosts, envs, n)
    ensures AnyAborted(commands, hosts, envs, |commands|)
    decreases |commands| - n
  {
    if n < |commands| {
      AbortedStaysAborted(commands, hosts, envs, n + 1);
    }
  }

  /** The working directory after the dispatches of the first n commands. */
  function FleetFiles(files: map<string, string>, commands: seq<string>, hosts: seq<string>, envs: seq<Env>, n: nat): map<string, string>
    requires Launchable(commands, hosts, envs) && n <= |commands|
  {
    if n == 0 then files
    else FinalFiles(FleetFiles(files, commands, hosts, envs, n - 1), Job(n - 1, commands[n - 1], hosts), envs[n - 1])
  }

  /** Every message is true or false: the two counts add up to the number of messages. */
  lemma {:induction false} TrueFalseAddUp(m: multiset<bool>)
    ensures m[true] + m[false] == |m|
    decreases |m|
  {
    if true in m {
      TrueFalseAddUp(m - multiset{true});
    } else if false in m {
      TrueFalseAddUp(m - multiset{false});
    } else {
      assert forall x: bool :: m[x] == multiset{}[x];
      assert m == multiset{};
    }
  }

  /**
   * The collection loop of main.go:121-127: exactly numCommands receives,
   * counting the true ones, whatever order the messages arrive in.
   */
  method Collect(doneChan: Channel, numCommands: nat) returns (numSuccessful: nat)
    requires |doneChan.pending| == numCommands
    modifies doneChan
    ensures numSuccessful == old(doneChan.pending)[true] <= numCommands
    ensures doneChan.pending == multiset{}
  {
    TrueFalseAddUp(doneChan.pending);
    numSuccessful := 0;
    for left := 0 to numCommands
      invariant |doneChan.pending| == numCommands - left
      invariant numSuccessful + doneChan.pending[true] == old(doneChan.pending)[true]
    {
      var ok := doneChan.Receive();
      if ok {
        numSuccessful := numSuccessful + 1;
      }
    }
  }

  /**
   * The launch loop of main.go:115-118: one dispatch per command, command i
   * with id i, all sending on doneChan. A dispatch that panics halts the
   * process, and then nothing further is launched.
   */
  method LaunchAll(commands: seq<string>, hosts: seq<string>, envs: seq<Env>, fs: FileSystem, doneChan: Channel)
    returns (aborted: bool)
    requires Launchable(commands, hosts, envs)
    modifies fs, doneChan
    ensures aborted == AnyAborted(commands, hosts, envs, |commands|)
    ensures !aborted ==> doneChan.pending == old(doneChan.pending) + multiset(Reported(commands, hosts, envs, |commands|))
    ensures !aborted ==> fs.files == FleetFiles(old(fs.files), commands, hosts, envs, |commands|)
  {
    for i := 0 to |commands|
      invariant !AnyAborted(commands, hosts, envs, i)
      invariant doneChan.pending == old(doneChan.pending) + multiset(Reported(commands, hosts, envs, i))
      invariant fs.files == FleetFiles(old(fs.files), commands, hosts, envs, i)
    {
      var status, _ := Dispatch.Dispatch(Job(i, commands[i], hosts), envs[i], fs, doneChan);
      if status == Aborted {
        AbortedStaysAborted(commands, hosts, envs, i + 1);
        return true;
      }
    }
    return false;
  }

  /**
   * main.go:115-128 with the command and host lists already read: launch a
   * dispatch per command, receive len(commands) results and summarise them.
   * When a dispatch panics the process halts and there is no summary.
   */
  method RunFleet(commands: seq<string>, hosts: seq<string>, envs: seq<Env>, fs: FileSystem)
    returns (summary: Option<Summary>)
    requires Launchable(commands, hosts, envs)
    modifies fs
    ensures summary.None? <==> AnyAborted(commands, hosts, envs, |commands|)
    ensures summary.Some? ==>
      var r := Reported(commands, hosts, envs, |commands|);
      && summary.value == Summary(multiset(r)[true], multiset(r)[false], |commands|)
      && summary.value.finished + summary.value.failed == summary.value.total
      && fs.files == FleetFiles(old(fs.files), commands, hosts, envs, |commands|)
  {
    var doneChan := new Channel();
    var aborted := LaunchAll(commands, hosts, envs, fs, doneChan);
    if aborted {
      return None;
    }
    var numCommands := |commands|;
    TrueFalseAddUp(multiset(Reported(commands, hosts, envs, numCommands)));
    var numSuccessful := Collect(doneChan, numCommands);
    summary := Some(Summary(numSuccessful, numCommands - numSuccessful, numCommands));
  }
}
