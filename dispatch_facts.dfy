/**
 * What a dispatch guarantees, stated over the closed-form description of its
 * effect (module Dispatch), which the method Dispatch is proved to have.
 */
module DispatchFacts {
  import opened Names
  import opened Permutation
  import opened Dispatch

  /** After n attempts, attempt k's file holds attempt k's output. */
  lemma {:induction false} WrittenAt(files: map<string, string>, job: Job, env: Env, n: nat, k: nat)
    requires WellFormed(job, env) && k < n <= |env.order|
    ensures var w := Written(files, job, env, n);
      AttemptName(job.id, k) in w && w[AttemptName(job.id, k)] == OutcomeAt(job, env, k).output
  {
    if k < n - 1 {
      AttemptNameInjective(job.id, k, job.id, n - 1);
      WrittenAt(files, job, env, n - 1, k);
    }
  }

  /** Writing attempt files changes no other file. */
  lemma {:induction false} WrittenElsewhere(files: map<string, string>, job: Job, env: Env, n: nat, p: string)
    requires WellFormed(job, env) && n <= |env.order|
    requires p !in AttemptNames(job.id, n)
    ensures var w := Written(files, job, env, n);
      (p in w <==> p in files) && (p in files ==> w[p] == files[p])
  {
    if n > 0 {
      WrittenElsewhere(files, job, env, n - 1, p);
    }
  }

  /**
   * Hosts are tried in the order of the permutation, each at most once, never
   * more attempts than hosts; attempt k has number k and writes
   * cmd_<id>-attempt<k>.log, and no two attempts share a file.
   */
  lemma AttemptsFollowOrder(job: Job, env: Env)
    requires WellFormed(job, env)
    ensures var t := Trace(job, env);
      && |t| <= |job.hosts|
      && (forall k :: 0 <= k < |t| ==>
            t[k].number == k && t[k].path == AttemptName(job.id, k) && t[k].host == job.hosts[env.order[k]])
      && (forall j, k :: 0 <= j < k < |t| ==> env.order[j] != env.order[k] && t[j].path != t[k].path)
  {
    var t := Trace(job, env);
    forall j, k | 0 <= j < k < |t|
      ensures t[j].path != t[k].path
    {
      AttemptNameInjective(job.id, j, job.id, k);
    }
  }

  /** Every attempt before the step where the loop leaves ran and failed. */
  lemma FailedBeforeStop(job: Job, env: Env, k: nat)
    requires WellFormed(job, env) && k < Stop(job, env)
    ensures !CreateFails(job, env, k) && !OutcomeAt(job, env, k).success
  {
    assert !Halts(job, env, k);
  }

  /**
   * The command reports success exactly when one of its attempts succeeded;
   * that attempt is the last one (no later host is tried) and every earlier
   * attempt failed.
   */
  lemma StopsAtFirstSuccess(job: Job, env: Env)
    requires WellFormed(job, env)
    ensures var t := Trace(job, env);
      && (Verdict(job, env) == Succeeded <==> exists k :: 0 <= k < |t| && t[k].success)
      && (Verdict(job, env) == Succeeded ==> t[|t| - 1].success)
      && (forall k :: 0 <= k < |t| - 1 ==> !t[k].success)
  {
    var t := Trace(job, env);
    var s := Stop(job, env);
    forall k | 0 <= k < |t| && k < s
      ensures !t[k].success
    {
      FailedBeforeStop(job, env, k);
    }
    if Verdict(job, env) == Succeeded {
      assert t[s].success;
    }
  }

  /**
   * When every attempt file can be created, the command succeeds exactly when
   * one of its |hosts| attempts succeeds.
   */
  lemma SucceedsIffSomeAttemptWorks(job: Job, env: Env)
    requires WellFormed(job, env)
    requires forall k :: 0 <= k < |job.hosts| ==> env.canCreate(AttemptName(job.id, k))
    ensures Verdict(job, env) != Aborted
    ensures Verdict(job, env) == Succeeded <==>
      exists k :: 0 <= k < |job.hosts| && OutcomeAt(job, env, k).success
  {
    var s := Stop(job, env);
    if s == |env.order| {
      forall k | 0 <= k < |job.hosts|
        ensures !OutcomeAt(job, env, k).success
      {
        assert !Halts(job, env, k);
      }
    }
  }

  /**
   * When every attempt file can be created and each host either always or
   * never runs the command successfully, the command succeeds exactly when
   * some host of the pool runs it successfully: the permutation omits no host.
   */
  lemma SucceedsIffSomeHostWorks(job: Job, env: Env)
    requires WellFormed(job, env)
    requires forall k :: 0 <= k < |job.hosts| ==> env.canCreate(AttemptName(job.id, k))
    requires forall h, k :: 0 <= h < |job.hosts| && 0 <= k < |job.hosts| ==>
      env.exec(job.command, job.hosts[h], k).success == env.exec(job.command, job.hosts[h], 0).success
    ensures Verdict(job, env) != Aborted
    ensures Verdict(job, env) == Succeeded <==>
      exists h :: 0 <= h < |job.hosts| && env.exec(job.command, job.hosts[h], 0).success
  {
    SucceedsIffSomeAttemptWorks(job, env);
    if Verdict(job, env) == Succeeded {
      var k :| 0 <= k < |job.hosts| && OutcomeAt(job, env, k).success;
      assert env.exec(job.command, job.hosts[env.order[k]], 0).success;
    } else {
      forall h | 0 <= h < |job.hosts|
        ensures !env.exec(job.command, job.hosts[h], 0).success
      {
        Covers(env.order, |job.hosts|, h);
        var k :| 0 <= k < |job.hosts| && env.order[k] == h;
        assert !OutcomeAt(job, env, k).success;
      }
    }
  }

  /**
   * Exhaustion: every host was tried and failed, exactly |hosts| attempt files
   * exist afterwards, each with its attempt's output, no file is removed, no
   * final file is produced, and false is sent.
   */
  lemma ExhaustedFacts(files: map<string, string>, job: Job, env: Env)
    requires WellFormed(job, env) && Verdict(job, env) == Exhausted
    ensures var t := Trace(job, env);
      |t| == |job.hosts| && forall k :: 0 <= k < |t| ==> !t[k].success
    ensures var f := FinalFiles(files, job, env);
      && f.Keys == files.Keys + AttemptNames(job.id, |job.hosts|)
      && |AttemptNames(job.id, |job.hosts|)| == |job.hosts|
      && (forall k :: 0 <= k < |job.hosts| ==> f[AttemptName(job.id, k)] == OutcomeAt(job, env, k).output)
      && (FinalName(job.id) in f <==> FinalName(job.id) in files)
      && (FinalName(job.id) in files ==> f[FinalName(job.id)] == files[FinalName(job.id)])
    ensures Sent(job, env) == [false]
  {
    var n := |job.hosts|;
    var t := Trace(job, env);
    forall k | 0 <= k < |t|
      ensures !t[k].success
    {
      FailedBeforeStop(job, env, k);
    }
    var w := Written(files, job, env, n);
    assert FinalFiles(files, job, env) == w;
    WrittenKeys(files, job, env, n);
    AttemptNamesCount(job.id, n);
    forall k | 0 <= k < n
      ensures w[AttemptName(job.id, k)] == OutcomeAt(job, env, k).output
    {
      WrittenAt(files, job, env, n, k);
    }
    if FinalName(job.id) in AttemptNames(job.id, n) {
      AttemptNamesParse(job.id, n, FinalName(job.id));
      FinalNameIsNoAttemptName(job.id);
    }
    WrittenElsewhere(files, job, env, n, FinalName(job.id));
  }

  /** With no hosts, rand.Perm(0) is empty: nothing is tried, no file is touched, false is sent. */
  lemma NoHosts(files: map<string, string>, job: Job, env: Env)
    requires WellFormed(job, env) && |job.hosts| == 0
    ensures Verdict(job, env) == Exhausted && Trace(job, env) == []
    ensures FinalFiles(files, job, env) == files
    ensures Sent(job, env) == [false]
  {
  }

  /**
   * Promotion: after a successful attempt whose rename succeeds, the final
   * file holds that attempt's output, its attempt file is gone, the earlier
   * failed attempts keep their files, and true is sent.
   */
  lemma PromotedFacts(files: map<string, string>, job: Job, env: Env)
    requires WellFormed(job, env) && Promoted(job, env)
    ensures var s := Stop(job, env); var f := FinalFiles(files, job, env);
      && s < |env.order|
      && FinalName(job.id) in f && f[FinalName(job.id)] == OutcomeAt(job, env, s).output
      && AttemptName(job.id, s) !in f
      && (forall k :: 0 <= k < s ==>
            AttemptName(job.id, k) in f && f[AttemptName(job.id, k)] == OutcomeAt(job, env, k).output)
      && f.Keys == (files.Keys + AttemptNames(job.id, s + 1) - {AttemptName(job.id, s)}) + {FinalName(job.id)}
    ensures Sent(job, env) == [true]
  {
    var s := Stop(job, env);
    WrittenKeys(files, job, env, s + 1);
    WrittenAt(files, job, env, s + 1, s);
    FinalNameNeverAttemptName(job.id, job.id, s);
    forall k | 0 <= k < s
      ensures AttemptName(job.id, k) in FinalFiles(files, job, env)
      ensures FinalFiles(files, job, env)[AttemptName(job.id, k)] == OutcomeAt(job, env, k).output
    {
      WrittenAt(files, job, env, s + 1, k);
      AttemptNameInjective(job.id, k, job.id, s);
      FinalNameNeverAttemptName(job.id, job.id, k);
    }
  }

  /**
   * Degraded mode: when the rename after a successful attempt fails, the
   * command still reports true and its output stays under the attempt name;
   * the final name is left as it was.
   */
  lemma RenameFailureDegraded(files: map<string, string>, job: Job, env: Env)
    requires WellFormed(job, env) && Verdict(job, env) == Succeeded && !Promoted(job, env)
    ensures var s := Stop(job, env); var f := FinalFiles(files, job, env);
      && s < |env.order|
      && f[AttemptName(job.id, s)] == OutcomeAt(job, env, s).output
      && (FinalName(job.id) in f <==> FinalName(job.id) in files)
      && (FinalName(job.id) in files ==> f[FinalName(job.id)] == files[FinalName(job.id)])
    ensures Sent(job, env) == [true]
  {
    var s := Stop(job, env);
    WrittenAt(files, job, env, s + 1, s);
    if FinalName(job.id) in AttemptNames(job.id, s + 1) {
      AttemptNamesParse(job.id, s + 1, FinalName(job.id));
      FinalNameIsNoAttemptName(job.id);
    }
    WrittenElsewhere(files, job, env, s + 1, FinalName(job.id));
  }

  /**
   * A failed os.Create aborts before the command runs on that host: the
   * attempts before it all failed, its file is not created, nothing is
   * promoted and nothing is sent.
   */
  lemma CreateFailureAborts(files: map<string, string>, job: Job, env: Env)
    requires WellFormed(job, env) && Verdict(job, env) == Aborted
    ensures var s := Stop(job, env); var t := Trace(job, env); var f := FinalFiles(files, job, env);
      && s < |env.order| && CreateFails(job, env, s)
      && |t| == s
      && (forall k :: 0 <= k < |t| ==> !t[k].success)
      && (AttemptName(job.id, s) in f <==> AttemptName(job.id, s) in files)
      && (FinalName(job.id) in f <==> FinalName(job.id) in files)
    ensures Sent(job, env) == []
  {
    var s := Stop(job, env);
    var t := Trace(job, env);
    forall k | 0 <= k < |t|
      ensures !t[k].success
    {
      FailedBeforeStop(job, env, k);
    }
    if AttemptName(job.id, s) in AttemptNames(job.id, s) {
      AttemptNamesParse(job.id, s, AttemptName(job.id, s));
      AttemptNameRoundTrip(job.id, s);
    }
    if FinalName(job.id) in AttemptNames(job.id, s) {
      AttemptNamesParse(job.id, s, FinalName(job.id));
      FinalNameIsNoAttemptName(job.id);
    }
    WrittenElsewhere(files, job, env, s, AttemptName(job.id, s));
    WrittenElsewhere(files, job, env, s, FinalName(job.id));
  }

  /**
   * A dispatch touches only the names its own command owns, so dispatches of
   * different commands running side by side never interfere in the working
   * directory (see Names.OwnersAreUnique).
   */
  lemma OnlyOwnNamesTouched(files: map<string, string>, job: Job, env: Env, p: string)
    requires WellFormed(job, env) && !OwnedBy(job.id, p)
    ensures p in FinalFiles(files, job, env) <==> p in files
    ensures p in files ==> FinalFiles(files, job, env)[p] == files[p]
  {
    var n := Ran(job, env);
    if p in AttemptNames(job.id, n) {
      AttemptNamesParse(job.id, n, p);
    }
    FinalNameOwned(job.id);
    WrittenElsewhere(files, job, env, n, p);
  }

  /** What the attempt writes leave at p depends on the starting directory only at p. */
  lemma {:induction false} WrittenLocal(x: map<string, string>, y: map<string, string>, job: Job, env: Env, n: nat, p: string)
    requires WellFormed(job, env) && n <= |env.order|
    requires (p in x <==> p in y) && (p in x ==> x[p] == y[p])
    ensures var wx, wy := Written(x, job, env, n), Written(y, job, env, n);
      (p in wx <==> p in wy) && (p in wx ==> wx[p] == wy[p])
  {
    if n > 0 {
      WrittenLocal(x, y, job, env, n - 1, p);
    }
  }

  /** What a dispatch leaves at p depends on the starting directory only at p. */
  lemma FinalFilesLocal(x: map<string, string>, y: map<string, string>, job: Job, env: Env, p: string)
    requires WellFormed(job, env)
    requires (p in x <==> p in y) && (p in x ==> x[p] == y[p])
    ensures var fx, fy := FinalFiles(x, job, env), FinalFiles(y, job, env);
      (p in fx <==> p in fy) && (p in fx ==> fx[p] == fy[p])
  {
    var n := Ran(job, env);
    WrittenLocal(x, y, job, env, n, p);
    if Promoted(job, env) {
      var s := Stop(job, env);
      WrittenAt(x, job, env, n, s);
      WrittenAt(y, job, env, n, s);
    }
  }

  /**
   * Dispatches of two different commands commute: run one after the other in
   * either order, they leave the same working directory. Interleavings of
   * single file operations from the two dispatches are not covered.
   */
  lemma DispatchesCommute(files: map<string, string>, job1: Job, env1: Env, job2: Job, env2: Env)
    requires WellFormed(job1, env1) && WellFormed(job2, env2)
    requires job1.id != job2.id
    ensures FinalFiles(FinalFiles(files, job1, env1), job2, env2)
         == FinalFiles(FinalFiles(files, job2, env2), job1, env1)
  {
    var a1, a2 := FinalFiles(files, job1, env1), FinalFiles(files, job2, env2);
    var l, r := FinalFiles(a1, job2, env2), FinalFiles(a2, job1, env1);
    forall p
      ensures (p in l <==> p in r) && (p in l ==> l[p] == r[p])
    {
      if OwnedBy(job1.id, p) {
        if OwnedBy(job2.id, p) {
          OwnersAreUnique(job1.id, job2.id, p);
        }
        OnlyOwnNamesTouched(a1, job2, env2, p);
        OnlyOwnNamesTouched(files, job2, env2, p);
        FinalFilesLocal(files, a2, job1, env1, p);
      } else {
        OnlyOwnNamesTouched(a2, job1, env1, p);
        OnlyOwnNamesTouched(files, job1, env1, p);
        FinalFilesLocal(files, a1, job2, env2, p);
      }
    }
    assert l.Keys == r.Keys;
  }
}
