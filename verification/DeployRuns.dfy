/** Any number of deployments one after another on the same machine, each of which may succeed,
    fail, be rolled back or die at any operation, recovery included. */
module DeployRuns {
  import opened Basics
  import opened Bundle
  import opened Disk
  import opened Recovery
  import opened Deploy

  /** The disks between invocations. Each invocation is what `Deploy` is proved to be. */
  ghost predicate IsHistory(rd: Reader, ds: seq<Disk>, jobs: seq<Job>, rs: seq<Outcome<Report>>) {
    && |ds| == |jobs| + 1 && |rs| == |jobs| && Quiet(ds[0])
    && forall i :: 0 <= i < |jobs| ==>
         Invocation(rd, jobs[i], ds[i], ds[i + 1], rs[i]) && StaysRestartable(jobs[i], ds[i], ds[i + 1])
  }

  /** One live transaction: on every disk of a history there is at most one transaction
      directory, and every staging, backup and recovery path is one of the three its manifest
      names, so no start-up meets a path it cannot bind. */
  lemma OneLiveTransaction(rd: Reader, ds: seq<Disk>, jobs: seq<Job>, rs: seq<Outcome<Report>>, j: nat)
    requires IsHistory(rd, ds, jobs, rs) && j < |ds|
    ensures Sound(rd, ds[j]) && |ds[j].transactions| <= 1
    ensures forall id, s :: id in ds[j].transactions && s in ds[j].switches ==>
              ds[j].transactions[id].manifest.Some? && s in BoundSwitches(ds[j].transactions[id].manifest.value)
    ensures ds[j].transactions == map[] ==> ds[j].switches == map[]
  {
    if j == 0 {
      QuietIsSound(rd, ds[0]);
    } else {
      assert Invocation(rd, jobs[j - 1], ds[j - 1], ds[j], rs[j - 1]);
    }
    SoundIsBound(rd, ds[j]);
  }

  lemma SoundIsBound(rd: Reader, d: Disk)
    requires Sound(rd, d)
    ensures |d.transactions| <= 1
    ensures forall id, s :: id in d.transactions && s in d.switches ==>
              d.transactions[id].manifest.Some? && s in BoundSwitches(d.transactions[id].manifest.value)
  {
  }

  /** Invocation `i - 1` ended in the full success condition, or nothing has been deployed yet. */
  ghost predicate IsMilestone(rd: Reader, ds: seq<Disk>, jobs: seq<Job>, i: nat)
    requires |ds| == |jobs| + 1 && i < |ds|
  {
    Quiet(ds[i]) && (i > 0 ==> Deployed(rd, jobs[i - 1], Committed(ds[i - 1]), LiveOf(ds[i])))
  }

  /** `i` is the last milestone up to `j`: what its disk held is what every later one stands for. */
  ghost predicate StandsFor(rd: Reader, ds: seq<Disk>, jobs: seq<Job>, i: nat, j: nat)
    requires |ds| == |jobs| + 1 && i <= j < |ds|
  {
    IsMilestone(rd, ds, jobs, i) && forall k :: i <= k <= j ==> Committed(ds[k]) == LiveOf(ds[i])
  }

  ghost predicate HasMilestone(rd: Reader, ds: seq<Disk>, jobs: seq<Job>, j: nat)
    requires |ds| == |jobs| + 1 && j < |ds|
  {
    exists i :: 0 <= i <= j && StandsFor(rd, ds, jobs, i, j)
  }

  lemma Milestone(rd: Reader, ds: seq<Disk>, jobs: seq<Job>, j: nat)
    requires |ds| == |jobs| + 1 && j < |ds| && Quiet(ds[j])
    requires j > 0 ==> Deployed(rd, jobs[j - 1], Committed(ds[j - 1]), Committed(ds[j]))
    ensures StandsFor(rd, ds, jobs, j, j)
  {
  }

  lemma StillStands(rd: Reader, ds: seq<Disk>, jobs: seq<Job>, i: nat, j: nat)
    requires |ds| == |jobs| + 1 && i < j < |ds| && StandsFor(rd, ds, jobs, i, j - 1)
    requires Committed(ds[j]) == Committed(ds[j - 1])
    ensures StandsFor(rd, ds, jobs, i, j)
  {
  }

  /** What the disk stands for is kept, or replaced by a success. */
  ghost predicate KeptOrDeployed(rd: Reader, job: Job, d: Disk, d': Disk) {
    Committed(d') == Committed(d) || (Quiet(d') && Deployed(rd, job, Committed(d), Committed(d')))
  }

  lemma HistoryKeeps(rd: Reader, ds: seq<Disk>, jobs: seq<Job>, rs: seq<Outcome<Report>>, k: nat)
    requires IsHistory(rd, ds, jobs, rs) && k < |jobs|
    ensures KeptOrDeployed(rd, jobs[k], ds[k], ds[k + 1])
  {
    assert Invocation(rd, jobs[k], ds[k], ds[k + 1], rs[k]);
  }

  /** One invocation later the disk stands for the same, or for a new success. */
  lemma StandsOn(rd: Reader, ds: seq<Disk>, jobs: seq<Job>, j: nat)
    requires |ds| == |jobs| + 1 && 0 < j < |ds| && HasMilestone(rd, ds, jobs, j - 1)
    requires KeptOrDeployed(rd, jobs[j - 1], ds[j - 1], ds[j])
    ensures HasMilestone(rd, ds, jobs, j)
  {
    if Committed(ds[j]) != Committed(ds[j - 1]) {
      Milestone(rd, ds, jobs, j);
    } else {
      var i :| 0 <= i <= j - 1 && StandsFor(rd, ds, jobs, i, j - 1);
      StillStands(rd, ds, jobs, i, j);
    }
  }

  /** No loss: at every moment of every history the disk stands for the exact stable tree and
      cache of the last success (or of the beginning), through any number of failures, crashes
      and crashed recoveries since. */
  lemma {:induction false} NothingIsLost(rd: Reader, ds: seq<Disk>, jobs: seq<Job>, rs: seq<Outcome<Report>>, j: nat)
    requires IsHistory(rd, ds, jobs, rs) && j < |ds|
    ensures HasMilestone(rd, ds, jobs, j)
  {
    if j == 0 {
      Milestone(rd, ds, jobs, 0);
    } else {
      NothingIsLost(rd, ds, jobs, rs, j - 1);
      HistoryKeeps(rd, ds, jobs, rs, j - 1);
      StandsOn(rd, ds, jobs, j);
    }
  }

  /** While no invocation from `i` to `j` reaches the success condition, a quiet disk at the end
      holds exactly what it held at the beginning. */
  lemma {:induction false} RecoveryIsExact(rd: Reader, ds: seq<Disk>, jobs: seq<Job>, rs: seq<Outcome<Report>>, i: nat, j: nat)
    requires IsHistory(rd, ds, jobs, rs) && i <= j < |ds| && Quiet(ds[i])
    requires forall k :: i <= k < j ==> !Deployed(rd, jobs[k], LiveOf(ds[i]), Committed(ds[k + 1]))
    ensures Committed(ds[j]) == LiveOf(ds[i]) && (Quiet(ds[j]) ==> LiveOf(ds[j]) == LiveOf(ds[i]))
  {
    QuietIsSound(rd, ds[i]);
    if i < j {
      RecoveryIsExact(rd, ds, jobs, rs, i, j - 1);
      assert Invocation(rd, jobs[j - 1], ds[j - 1], ds[j], rs[j - 1]);
    }
    if Quiet(ds[j]) {
      QuietIsSound(rd, ds[j]);
    }
  }

  /** As long as installers stay among the known cache names, every disk of a history is quiet,
      can be recovered, or is in one of the three named windows. */
  lemma {:induction false} EveryDiskRestarts(rd: Reader, ds: seq<Disk>, jobs: seq<Job>, rs: seq<Outcome<Report>>, j: nat)
    requires IsHistory(rd, ds, jobs, rs) && j < |ds|
    requires forall k :: 0 <= k < |jobs| ==> Confined(jobs[k], Committed(ds[k]))
    ensures CanStartAgain(ds[j])
  {
    if j > 0 {
      EveryDiskRestarts(rd, ds, jobs, rs, j - 1);
      assert StaysRestartable(jobs[j - 1], ds[j - 1], ds[j]);
    }
  }

  // ----- executions ----------------------------------------------------------------------------

  /** Runs any list of invocations, each in its own weather, and records the disks between them.
      They form a history, so what is left at the end is sound and stands for the last success,
      and is live again if nothing is pending. */
  method RunAll(fs: FileSystem, rd: Reader, jobs: seq<Job>, execute: seq<bool>, weathers: seq<seq<Weather>>)
    returns (ds: seq<Disk>, rs: seq<Outcome<Report>>)
    requires |execute| == |jobs| && |weathers| == |jobs| && Quiet(fs.disk)
    modifies fs
    ensures IsHistory(rd, ds, jobs, rs) && ds[0] == old(fs.disk) && ds[|jobs|] == fs.disk
    ensures Sound(rd, fs.disk) && HasMilestone(rd, ds, jobs, |jobs|)
    ensures (forall k :: 0 <= k < |jobs| ==> Confined(jobs[k], Committed(ds[k]))) ==> CanStartAgain(fs.disk)
  {
    ds, rs := [fs.disk], [];
    for i := 0 to |jobs|
      invariant |ds| == i + 1 && |rs| == i && IsHistory(rd, ds, jobs[..i], rs)
      invariant ds[0] == old(fs.disk) && ds[i] == fs.disk
    {
      fs.weather := weathers[i];
      OneLiveTransaction(rd, ds, jobs[..i], rs, i);
      var r := Deploy.Deploy(fs, rd, jobs[i], execute[i]);
      HistoryGrows(rd, ds, jobs, rs, i, fs.disk, r);
      ds, rs := ds + [fs.disk], rs + [r];
    }
    assert jobs[..|jobs|] == jobs;
    OneLiveTransaction(rd, ds, jobs, rs, |jobs|);
    NothingIsLost(rd, ds, jobs, rs, |jobs|);
    if forall k :: 0 <= k < |jobs| ==> Confined(jobs[k], Committed(ds[k])) {
      EveryDiskRestarts(rd, ds, jobs, rs, |jobs|);
    }
  }

  lemma HistoryGrows(rd: Reader, ds: seq<Disk>, jobs: seq<Job>, rs: seq<Outcome<Report>>, i: nat, d: Disk, r: Outcome<Report>)
    requires i < |jobs| && |ds| == i + 1 && |rs| == i && IsHistory(rd, ds, jobs[..i], rs)
    requires Invocation(rd, jobs[i], ds[i], d, r) && StaysRestartable(jobs[i], ds[i], d)
    ensures IsHistory(rd, ds + [d], jobs[..i + 1], rs + [r])
  {
    forall k | 0 <= k < i + 1
      ensures Invocation(rd, jobs[..i + 1][k], (ds + [d])[k], (ds + [d])[k + 1], (rs + [r])[k])
              && StaysRestartable(jobs[..i + 1][k], (ds + [d])[k], (ds + [d])[k + 1])
    {
      if k < i {
        assert jobs[..i][k] == jobs[k];
      }
    }
  }

  /** A deployment stopped in any weather before its clean-up, and a start-up after it in fair
      weather: stable and the whole cache are back, exactly, with nothing left of the
      transaction; unless the stop came before its first manifest. `left` is the disk the stop
      left. */
  method StopThenRecover(fs: FileSystem, rd: Reader, job: Job, plan: Plan)
    returns (stopped: Outcome<()>, left: Disk, recovered: Outcome<bool>)
    requires Quiet(fs.disk) && PlanFits(rd, job, plan, LiveOf(fs.disk)) && Confined(job, LiveOf(fs.disk))
    modifies fs
    ensures !stopped.Value? && (forall id <- left.transactions :: left.transactions[id].manifest.Some?) ==>
              recovered.Value? && Quiet(fs.disk) && LiveOf(fs.disk) == LiveOf(old(fs.disk))
    ensures !stopped.Value? && !recovered.Value? ==> fs.disk == left && LiveOf(left) == LiveOf(old(fs.disk))
  {
    ghost var pre := LiveOf(fs.disk);
    stopped := UpToCleanUp(fs, rd, job, plan, pre);
    left := fs.disk;
    if stopped.Value? {
      return stopped, left, Value(false);
    }
    StoppedIsSound(rd, fs.disk, job, plan, pre);
    StoppedBeforeManifest(fs.disk, job, plan, pre);
    fs.weather := [];
    recovered := RecoverInterrupted(fs, rd);
  }

  lemma StoppedBeforeManifest(d: Disk, job: Job, plan: Plan, pre: Live)
    requires Stopped(d, job, plan, pre) && Confined(job, pre)
    ensures Quiet(d) || RecoverableDisk(d) || (InWindow(d) && job.id in d.transactions && d.transactions[job.id].manifest.None? && LiveOf(d) == pre)
  {
    if InProgress(d, job, plan, pre) {
      InProgressIsRecoverable(d, job, plan, pre);
    } else {
      UnstartedIsRecoverable(d, job, plan, pre);
      if d.transactions != map[] {
        SameTransaction(d, job.id, d.transactions[job.id]);
      }
    }
  }
}
