/**
 * The per-command dispatch engine, `dispatch` in main.go:37-69.
 *
 * One command is tried on the hosts in the order of a permutation. Every
 * attempt gets the next attempt number and an attempt file
 * `cmd_<id>-attempt<k>.log` that receives the remote output. The first
 * attempt that succeeds is promoted to `cmd_<id>-final.log` and `true` is
 * sent on the completion channel; when every host fails, `false` is sent.
 * Failing to create an attempt file panics, which halts the process.
 *
 * Everything the dispatcher cannot decide itself is an input (Env): the host
 * order drawn by rand.Perm, the outcome of the `ssh` process started for a
 * (command, host) pair at a given attempt (every try is a fresh process, so
 * a host listed twice may answer differently each time),
 * and whether os.Create and os.Rename succeed for given names.
 *
 * The functions below describe the whole effect of a dispatch in closed form;
 * the method Dispatch is the loop of the source and is proved to have exactly
 * that effect.
 */
module Dispatch {
  import opened Names
  import opened Permutation
  import opened Files
  import opened Completion

  /** What tryCommand reports: success iff ssh exited with status 0, and the combined output. */
  datatype Outcome = Outcome(success: bool, output: string)

  datatype Env = Env(
    order: seq<nat>,                         // rand.Perm(len(hosts)), main.go:39
    exec: (string, string, nat) -> Outcome,  // tryCommand(command, host) as attempt k, main.go:24-33
    canCreate: string -> bool,               // whether os.Create(path) succeeds, main.go:46
    canRename: (string, string) -> bool      // whether os.Rename(from, to) succeeds, main.go:58
  )

  /** The arguments of dispatch: the command's index, the command and the host pool. */
  datatype Job = Job(id: nat, command: string, hosts: seq<string>)

  /** One attempt that ran: its number, its host, its output file and its outcome. */
  datatype Attempt = Attempt(number: nat, host: string, path: string, success: bool)

  /** Succeeded sends true, Exhausted sends false, Aborted is the panic of main.go:49. */
  datatype Status = Succeeded | Exhausted | Aborted

  predicate WellFormed(job: Job, env: Env) {
    IsPermutation(env.order, |job.hosts|)
  }

  function HostAt(job: Job, env: Env, k: nat): string
    requires WellFormed(job, env) && k < |env.order|
  {
    job.hosts[env.order[k]]
  }

  function OutcomeAt(job: Job, env: Env, k: nat): Outcome
    requires WellFormed(job, env) && k < |env.order|
  {
    env.exec(job.command, HostAt(job, env, k), k)
  }

  predicate CreateFails(job: Job, env: Env, k: nat) {
    !env.canCreate(AttemptName(job.id, k))
  }

  /** The loop leaves at step k: the attempt file cannot be created, or the command succeeds. */
  predicate Halts(job: Job, env: Env, k: nat)
    requires WellFormed(job, env) && k < |env.order|
  {
    CreateFails(job, env, k) || OutcomeAt(job, env, k).success
  }

  /** The first step at or after k where the loop leaves; |order| when it never does. */
  function StopFrom(job: Job, env: Env, k: nat): (s: nat)
    requires WellFormed(job, env) && k <= |env.order|
    ensures k <= s <= |env.order|
    ensures forall j :: k <= j < s ==> !Halts(job, env, j)
    ensures s < |env.order| ==> Halts(job, env, s)
    decreases |env.order| - k
  {
    if k == |env.order| || Halts(job, env, k) then k else StopFrom(job, env, k + 1)
  }

  function Stop(job: Job, env: Env): nat
    requires WellFormed(job, env)
  {
    StopFrom(job, env, 0)
  }

  function Verdict(job: Job, env: Env): Status
    requires WellFormed(job, env)
  {
    var s := Stop(job, env);
    if s == |env.order| then Exhausted
    else if CreateFails(job, env, s) then Aborted
    else Succeeded
  }

  /** How many attempts ran their command. */
  function Ran(job: Job, env: Env): (n: nat)
    requires WellFormed(job, env)
    ensures n <= |env.order|
  {
    match Verdict(job, env)
    case Exhausted => |env.order|
    case Aborted => Stop(job, env)
    case Succeeded => Stop(job, env) + 1
  }

  function AttemptAt(job: Job, env: Env, k: nat): Attempt
    requires WellFormed(job, env) && k < |env.order|
  {
    Attempt(k, HostAt(job, env, k), AttemptName(job.id, k), OutcomeAt(job, env, k).success)
  }

  /** The first n attempts, in the order they are made. */
  function TracePrefix(job: Job, env: Env, n: nat): (t: seq<Attempt>)
    requires WellFormed(job, env) && n <= |env.order|
    ensures |t| == n
    ensures forall k :: 0 <= k < n ==> t[k] == AttemptAt(job, env, k)
  {
    if n == 0 then [] else TracePrefix(job, env, n - 1) + [AttemptAt(job, env, n - 1)]
  }

  /** Every attempt that ran, in order. */
  function Trace(job: Job, env: Env): seq<Attempt>
    requires WellFormed(job, env)
  {
    TracePrefix(job, env, Ran(job, env))
  }

  /** The working directory after the first n attempts wrote their output files. */
  function Written(files: map<string, string>, job: Job, env: Env, n: nat): map<string, string>
    requires WellFormed(job, env) && n <= |env.order|
  {
    if n == 0 then files
    else Written(files, job, env, n - 1)[AttemptName(job.id, n - 1) := OutcomeAt(job, env, n - 1).output]
  }

  /** The attempt writes add exactly the first n attempt names to the directory. */
  lemma {:induction false} WrittenKeys(files: map<string, string>, job: Job, env: Env, n: nat)
    requires WellFormed(job, env) && n <= |env.order|
    ensures Written(files, job, env, n).Keys == files.Keys + AttemptNames(job.id, n)
  {
    if n > 0 {
      WrittenKeys(files, job, env, n - 1);
    }
  }

  /** Whether the successful attempt's file is moved to the final name. */
  predicate Promoted(job: Job, env: Env)
    requires WellFormed(job, env)
  {
    Verdict(job, env) == Succeeded && env.canRename(AttemptName(job.id, Stop(job, env)), FinalName(job.id))
  }

  /** The working directory when the dispatch ends. */
  function FinalFiles(files: map<string, string>, job: Job, env: Env): map<string, string>
    requires WellFormed(job, env)
  {
    var w := Written(files, job, env, Ran(job, env));
    if Promoted(job, env) then
      var a := AttemptName(job.id, Stop(job, env));
      WrittenKeys(files, job, env, Ran(job, env));
      assert a in AttemptNames(job.id, Ran(job, env));
      (w - {a})[FinalName(job.id) := w[a]]
    else w
  }

  /** What the dispatch sends on the completion channel. */
  function Sent(job: Job, env: Env): seq<bool>
    requires WellFormed(job, env)
  {
    match Verdict(job, env)
    case Succeeded => [true]
    case Exhausted => [false]
    case Aborted => []
  }

  /** The loop stops at step k because the attempt file cannot be created. */
  lemma EndsAborted(files: map<string, string>, job: Job, env: Env, k: nat)
    requires WellFormed(job, env) && k < |env.order|
    requires Stop(job, env) == StopFrom(job, env, k) && CreateFails(job, env, k)
    ensures Verdict(job, env) == Aborted && Ran(job, env) == k && Sent(job, env) == []
    ensures FinalFiles(files, job, env) == Written(files, job, env, k)
  {
  }

  /** The loop stops at step k because the command succeeds there. */
  lemma EndsSucceeded(files: map<string, string>, job: Job, env: Env, k: nat)
    requires WellFormed(job, env) && k < |env.order|
    requires Stop(job, env) == StopFrom(job, env, k)
    requires !CreateFails(job, env, k) && OutcomeAt(job, env, k).success
    ensures Verdict(job, env) == Succeeded && Ran(job, env) == k + 1 && Sent(job, env) == [true]
    ensures Promoted(job, env) == env.canRename(AttemptName(job.id, k), FinalName(job.id))
  {
  }

  /** The loop runs out of hosts. */
  lemma EndsExhausted(files: map<string, string>, job: Job, env: Env)
    requires WellFormed(job, env)
    requires Stop(job, env) == StopFrom(job, env, |env.order|)
    ensures Verdict(job, env) == Exhausted && Ran(job, env) == |env.order| && Sent(job, env) == [false]
    ensures FinalFiles(files, job, env) == Written(files, job, env, |env.order|)
  {
  }

  /**
   * dispatch(id, command, hosts, doneChan), main.go:37-69, with rand.Perm's
   * result, the ssh outcomes and the file-system failures taken from env.
   * Returns how the dispatch ended and the attempts that ran.
   */
  method Dispatch(job: Job, env: Env, fs: FileSystem, done: Channel) returns (status: Status, tried: seq<Attempt>)
    requires WellFormed(job, env)
    modifies fs, done
    ensures status == Verdict(job, env)
    ensures tried == Trace(job, env)
    ensures fs.files == FinalFiles(old(fs.files), job, env)
    ensures done.pending == old(done.pending) + multiset(Sent(job, env))
  {
    var attempts := 0;
    tried := [];
    for k := 0 to |env.order|
      invariant attempts == k
      invariant Stop(job, env) == StopFrom(job, env, k)
      invariant tried == TracePrefix(job, env, k)
      invariant fs.files == Written(old(fs.files), job, env, k)
      invariant done.pending == old(done.pending)
    {
      var host := job.hosts[env.order[k]];
      var attemptOutputPath := AttemptName(job.id, attempts);
      attempts := attempts + 1;
      var created := fs.Create(attemptOutputPath, env.canCreate(attemptOutputPath));
      if !created {
        // panic(err): the process halts and nothing is sent
        EndsAborted(old(fs.files), job, env, k);
        status := Aborted;
        return;
      }
      var result := env.exec(job.command, host, k);
      fs.Append(attemptOutputPath, result.output);
      assert "" + result.output == result.output;
      assert fs.files == Written(old(fs.files), job, env, k + 1);
      tried := tried + [Attempt(k, host, attemptOutputPath, result.success)];
      assert tried == TracePrefix(job, env, k + 1);
      if !result.success {
        continue;
      }
      EndsSucceeded(old(fs.files), job, env, k);
      var finalOutputPath := FinalName(job.id);
      // a failed rename is only logged: the output stays under the attempt name
      var _ := fs.Rename(attemptOutputPath, finalOutputPath, env.canRename(attemptOutputPath, finalOutputPath));
      done.Send(true);
      status := Succeeded;
      return;
    }
    EndsExhausted(old(fs.files), job, env);
    done.Send(false);
    status := Exhausted;
  }
}
