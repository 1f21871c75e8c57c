/** What decides how ProcessBlocks ends (internal/protocol/block_queue.go:170-296), in terms of what happened during
    the call: who failed, how often a block was tried, and what a failure stops. */
module QueueOutcome {
  import opened Wrappers
  import opened Cids
  import BatcherSpec
  import opened BlockQueue
  import QueueSafety

  // ---- success and failure ---------------------------------------------------------------------

  /** Some worker ran out of retries and was counted. */
  ghost predicate WorkerFailed(actions: seq<Action>) {
    exists i :: Work(i, Count) in actions
  }

  /** The BatchPin of the last flush failed. */
  ghost predicate FlushFailed(cfg: Config, s: Sys, actions: seq<Action>) {
    exists k :: 0 <= k < |actions| && FlushFailsAt(cfg, s, actions, k)
  }

  ghost predicate FlushFailsAt(cfg: Config, s: Sys, actions: seq<Action>, k: nat)
    requires k < |actions|
  {
    && actions[k].FlushAll? && actions[k].flushed.Some? && cfg.flusher
    && Run(cfg, s, actions[..k]).Some? && Run(cfg, s, actions[..k]).value.batcher.batch != []
  }

  lemma FlushFailedLater(cfg: Config, s: Sys, front: seq<Action>, a: Action)
    requires Run(cfg, s, front).Some?
    ensures FlushFailed(cfg, s, front + [a]) <==>
            FlushFailed(cfg, s, front) ||
            (a.FlushAll? && a.flushed.Some? && cfg.flusher && Run(cfg, s, front).value.batcher.batch != [])
  {
    var actions := front + [a];
    assert actions[..|front|] == front;
    assert forall k :: 0 <= k < |front| ==> actions[..k] == front[..k] && actions[k] == front[k];
    if FlushFailed(cfg, s, actions) {
      var k :| 0 <= k < |actions| && FlushFailsAt(cfg, s, actions, k);
      if k < |front| {
        assert FlushFailsAt(cfg, s, front, k);
      }
    }
    if FlushFailed(cfg, s, front) {
      var k :| 0 <= k < |front| && FlushFailsAt(cfg, s, front, k);
      assert FlushFailsAt(cfg, s, actions, k);
    }
    if a.FlushAll? && a.flushed.Some? && cfg.flusher && Run(cfg, s, front).value.batcher.batch != [] {
      assert FlushFailsAt(cfg, s, actions, |front|);
    }
  }

  /** A job's failure is known exactly from the step that counts it, and retries that were cut short with an
      error lead there. */
  predicate JobExplained(pc: JobPc, actions: seq<Action>, i: nat) {
    && (Told(pc) <==> Work(i, Count) in actions)
    && (Work(i, GiveUp(false)) in actions ==> pc.Failing? || Told(pc))
  }

  ghost predicate Explained(s: Sys, actions: seq<Action>) {
    && (forall i :: 0 <= i < |s.jobs| ==> JobExplained(s.jobs[i].pc, actions, i))
    && (forall i :: i >= |s.jobs| ==> Work(i, Count) !in actions && Work(i, GiveUp(false)) !in actions)
    && (s.errors ==> WorkerFailed(actions))
    && s.failedCount == Counts(actions)
  }

  /** How many failures were counted. */
  function Counts(actions: seq<Action>): nat {
    if actions == [] then 0
    else
      var a := actions[|actions| - 1];
      Counts(actions[..|actions| - 1]) + if a.Work? && a.step.Count? then 1 else 0
  }

  lemma StepKeepsExplained(cfg: Config, s: Sys, front: seq<Action>, a: Action)
    requires Explained(s, front) && Step(cfg, s, a).Some?
    ensures Explained(Step(cfg, s, a).value, front + [a])
  {
    assert (front + [a])[..|front|] == front;
    if a.Work? {
      WorkerKeepsExplained(cfg, s, front, a.job, a.step);
    } else {
      MainKeepsExplained(cfg, s, front, a);
    }
  }

  lemma MainKeepsExplained(cfg: Config, s: Sys, front: seq<Action>, a: Action)
    requires Explained(s, front) && !a.Work? && Step(cfg, s, a).Some?
    ensures Explained(Step(cfg, s, a).value, front + [a])
  {
    var u, actions := Step(cfg, s, a).value, front + [a];
    MainFrame(cfg, s, a);
    MainKeepsFailures(cfg, s, a);
    assert actions[..|front|] == front;
    forall i, w ensures Work(i, w) in actions <==> Work(i, w) in front {
    }
  }

  lemma MainKeepsFailures(cfg: Config, s: Sys, a: Action)
    requires !a.Work? && Step(cfg, s, a).Some?
    ensures Step(cfg, s, a).value.errors == s.errors && Step(cfg, s, a).value.failedCount == s.failedCount
  {
  }

  lemma WorkerKeepsExplained(cfg: Config, s: Sys, front: seq<Action>, i: nat, w: WorkStep)
    requires Explained(s, front) && WorkerStep(cfg, s, i, w).Some?
    ensures Explained(WorkerStep(cfg, s, i, w).value, front + [Work(i, w)])
  {
    var u, actions := WorkerStep(cfg, s, i, w).value, front + [Work(i, w)];
    WorkerFrame(cfg, s, i, w);
    WorkerIsExplained(cfg, s, front, i, w);
    assert actions[..|front|] == front;
    forall j: nat, x | j != i ensures Work(j, x) in actions <==> Work(j, x) in front {
    }
  }

  lemma WorkerIsExplained(cfg: Config, s: Sys, front: seq<Action>, i: nat, w: WorkStep)
    requires WorkerStep(cfg, s, i, w).Some? && JobExplained(s.jobs[i].pc, front, i)
    requires s.errors ==> WorkerFailed(front)
    ensures var u, actions := WorkerStep(cfg, s, i, w).value, front + [Work(i, w)];
            && JobExplained(u.jobs[i].pc, actions, i) && (u.errors ==> WorkerFailed(actions))
            && u.failedCount == s.failedCount + if w.Count? then 1 else 0
  {
    var u, actions := WorkerStep(cfg, s, i, w).value, front + [Work(i, w)];
    assert forall x :: x in actions <==> x in front || x == Work(i, w);
    if WorkerFailed(front) {
      var j :| Work(j, Count) in front;
      assert Work(j, Count) in actions;
    }
  }

  /** How far the call has come. */
  ghost predicate Outcome(cfg: Config, s0: Sys, s: Sys, actions: seq<Action>) {
    && (s.phase.Succeeded? <==> CheckErrors in actions && !WorkerFailed(actions))
    && (s.phase.Failed? <==>
          NextFails in actions || FlushFailed(cfg, s0, actions) || (CheckErrors in actions && WorkerFailed(actions)))
  }

  lemma WorkerKeepsOutcome(cfg: Config, s0: Sys, front: seq<Action>, a: Action)
    requires Run(cfg, s0, front).Some? && Outcome(cfg, s0, Run(cfg, s0, front).value, front)
    requires ErrorsKept(Run(cfg, s0, front).value) && Quiet(Run(cfg, s0, front).value)
    requires a.Work? && Step(cfg, Run(cfg, s0, front).value, a).Some?
    ensures Outcome(cfg, s0, Step(cfg, Run(cfg, s0, front).value, a).value, front + [a])
  {
    var s := Run(cfg, s0, front).value;
    var u := Step(cfg, s, a).value;
    WorkerFrame(cfg, s, a.job, a.step);
    FlushFailedLater(cfg, s0, front, a);
    assert forall x :: x in front + [a] <==> x in front || x == a;
    assert CheckErrors in front ==> s.phase.Succeeded? || s.phase.Failed?;
    if s.phase.Succeeded? {
      assert Ended(s.jobs[a.job].pc);
    }
  }

  lemma MainKeepsOutcome(cfg: Config, s0: Sys, front: seq<Action>, a: Action)
    requires Run(cfg, s0, front).Some? && Outcome(cfg, s0, Run(cfg, s0, front).value, front)
    requires var s := Run(cfg, s0, front).value;
             && ErrorsKept(s) && Quiet(s) && Explained(s, front) && QueueSafety.BatcherKept(cfg, s)
             && (CheckErrors in front ==> s.phase.Succeeded? || s.phase.Failed?)
    requires !a.Work? && Step(cfg, Run(cfg, s0, front).value, a).Some?
    ensures Outcome(cfg, s0, Step(cfg, Run(cfg, s0, front).value, a).value, front + [a])
  {
    var s := Run(cfg, s0, front).value;
    FlushFailedLater(cfg, s0, front, a);
    assert forall x :: x in front + [a] <==> x in front || x == a;
    if a.CheckErrors? {
      ErrorsAreTold(s, front);
    }
  }

  /** When every worker has ended, an error is recorded exactly if some failure was counted. */
  lemma ErrorsAreTold(s: Sys, actions: seq<Action>)
    requires ErrorsKept(s) && Quiet(s) && Waited(s.phase) && Explained(s, actions)
    ensures s.errors <==> WorkerFailed(actions)
  {
    if WorkerFailed(actions) {
      var i: nat :| Work(i, Count) in actions;
      assert Ended(s.jobs[i].pc) && s.jobs[i].pc.Reported?;
    }
  }

  lemma {:induction false} RunsKeepOutcome(cfg: Config, pre: set<Cid>, actions: seq<Action>)
    requires Run(cfg, Start(cfg, pre), actions).Some?
    ensures Outcome(cfg, Start(cfg, pre), Run(cfg, Start(cfg, pre), actions).value, actions)
    ensures Explained(Run(cfg, Start(cfg, pre), actions).value, actions)
  {
    if actions != [] {
      var front, a := actions[..|actions| - 1], actions[|actions| - 1];
      assert actions == front + [a];
      var s := Run(cfg, Start(cfg, pre), front).value;
      RunsKeepOutcome(cfg, pre, front);
      QueueSafety.RunsKeep(cfg, pre, front);
      StepKeepsExplained(cfg, s, front, a);
      if a.Work? {
        WorkerKeepsOutcome(cfg, Start(cfg, pre), front, a);
      } else {
        MainKeepsOutcome(cfg, Start(cfg, pre), front, a);
      }
    }
  }

  /** In every interleaving, whatever follows: the call succeeds exactly if it got as far as checking for errors
      and no worker ran out of retries; it fails exactly if the block source failed, the last flush did, or it
      found a worker's error. */
  lemma OutcomeIsExact(cfg: Config, pre: set<Cid>, actions: seq<Action>)
    requires Run(cfg, Start(cfg, pre), actions).Some?
    ensures var phase := Run(cfg, Start(cfg, pre), actions).value.phase;
            && (phase.Succeeded? <==> CheckErrors in actions && forall i :: Work(i, Count) !in actions)
            && (phase.Failed? <==> NextFails in actions || FlushFailed(cfg, Start(cfg, pre), actions)
                                   || (CheckErrors in actions && exists i :: Work(i, Count) in actions))
  {
    RunsKeepOutcome(cfg, pre, actions);
  }

  /** No failure is forgotten, whatever follows it: not that of the block source, of the last flush, of a worker
      or of retries that were cut short with an error; and the failures are counted one by one. */
  lemma NoFailureIsForgotten(cfg: Config, pre: set<Cid>, actions: seq<Action>)
    requires Run(cfg, Start(cfg, pre), actions).Some?
    ensures var s := Run(cfg, Start(cfg, pre), actions).value;
            && s.failedCount == Counts(actions)
            && (s.phase.Succeeded? ==>
                  && NextFails !in actions && !FlushFailed(cfg, Start(cfg, pre), actions)
                  && forall i :: Work(i, Count) !in actions && Work(i, GiveUp(false)) !in actions)
  {
    RunsKeepOutcome(cfg, pre, actions);
    RunsKeepErrors(cfg, pre, actions);
    var s := Run(cfg, Start(cfg, pre), actions).value;
    if s.phase.Succeeded? {
      forall i: nat ensures Work(i, Count) !in actions && Work(i, GiveUp(false)) !in actions {
        if i < |s.jobs| {
          assert Ended(s.jobs[i].pc) && JobExplained(s.jobs[i].pc, actions, i);
        }
      }
    }
  }

  // ---- attempts --------------------------------------------------------------------------------

  /** How often job i has looked its block up: once at the start of every attempt. */
  function Looks(actions: seq<Action>, i: nat): nat {
    if actions == [] then 0
    else Looks(actions[..|actions| - 1], i) + if actions[|actions| - 1] == Work(i, Look) then 1 else 0
  }

  /** The attempts are counted, there are at most three of them, and a job gives up before the third has failed
      only if its retries were cut short. */
  predicate AttemptsKept(pc: JobPc, looks: nat, cutShort: bool) {
    match pc
    case Queued => looks == 0
    case Started => looks == 0
    case Attempt(n) => 1 <= n <= 3 && looks == n - 1
    case Absent(n) => 1 <= n <= 3 && looks == n
    case Uploaded(n) => 1 <= n <= 3 && looks == n
    case AttemptFailed(n) => 1 <= n <= 3 && looks == n
    case Stored => 1 <= looks <= 3
    case Persisted => 1 <= looks <= 3
    case Dropped => looks <= 3
    case _ => 1 <= looks <= 3 && (looks < 3 ==> cutShort)
  }

  /** The retries of job i ended with an error before they were used up. */
  predicate CutShort(actions: seq<Action>, i: nat) {
    Work(i, GiveUp(false)) in actions
  }

  ghost predicate AllAttemptsKept(s: Sys, actions: seq<Action>) {
    && (forall i :: 0 <= i < |s.jobs| ==> AttemptsKept(s.jobs[i].pc, Looks(actions, i), CutShort(actions, i)))
    && (forall i :: i >= |s.jobs| ==> Looks(actions, i) == 0)
  }

  lemma JobKeepsAttempts(s: Sys, j: Job, w: WorkStep, looks: nat, cutShort: bool)
    requires AttemptsKept(j.pc, looks, cutShort) && JobNext(s, j, w).Some?
    ensures AttemptsKept(JobNext(s, j, w).value, looks + (if w.Look? then 1 else 0), cutShort || w == GiveUp(false))
  {
    match w
    case Begin =>
    case FirstTry =>
    case Look =>
    case Upload(ok) =>
    case AddMetadata(o) =>
    case Retry =>
    case GiveUp(bare) =>
    case Persist =>
    case Count =>
    case Announce =>
    case Cancel =>
  }

  lemma LooksLater(front: seq<Action>, a: Action, i: nat)
    ensures Looks(front + [a], i) == Looks(front, i) + (if a == Work(i, Look) then 1 else 0)
    ensures CutShort(front + [a], i) <==> CutShort(front, i) || a == Work(i, GiveUp(false))
  {
    assert (front + [a])[..|front|] == front;
    assert forall x :: x in front + [a] <==> x in front || x == a;
  }

  lemma WorkerKeepsAttempts(cfg: Config, s: Sys, front: seq<Action>, i: nat, w: WorkStep)
    requires AllAttemptsKept(s, front) && WorkerStep(cfg, s, i, w).Some?
    ensures AllAttemptsKept(WorkerStep(cfg, s, i, w).value, front + [Work(i, w)])
  {
    var u, actions := WorkerStep(cfg, s, i, w).value, front + [Work(i, w)];
    WorkerFrame(cfg, s, i, w);
    JobKeepsAttempts(s, s.jobs[i], w, Looks(front, i), CutShort(front, i));
    LooksLater(front, Work(i, w), i);
    forall j | 0 <= j < |u.jobs| && j != i
      ensures AttemptsKept(u.jobs[j].pc, Looks(actions, j), CutShort(actions, j))
    {
      LooksLater(front, Work(i, w), j);
    }
    forall j: nat | j >= |s.jobs| ensures Looks(actions, j) == 0 {
      LooksLater(front, Work(i, w), j);
    }
  }

  lemma MainKeepsAttempts(cfg: Config, s: Sys, front: seq<Action>, a: Action)
    requires AllAttemptsKept(s, front) && !a.Work? && Step(cfg, s, a).Some?
    ensures AllAttemptsKept(Step(cfg, s, a).value, front + [a])
  {
    MainFrame(cfg, s, a);
    assert (front + [a])[..|front|] == front;
    assert forall x :: x in front + [a] <==> x in front || x == a;
  }

  lemma {:induction false} RunsKeepAttempts(cfg: Config, pre: set<Cid>, actions: seq<Action>)
    requires Run(cfg, Start(cfg, pre), actions).Some?
    ensures AllAttemptsKept(Run(cfg, Start(cfg, pre), actions).value, actions)
  {
    if actions != [] {
      var front, a := actions[..|actions| - 1], actions[|actions| - 1];
      assert actions == front + [a];
      RunsKeepAttempts(cfg, pre, front);
      if a.Work? {
        WorkerKeepsAttempts(cfg, Run(cfg, Start(cfg, pre), front).value, front, a.job, a.step);
      } else {
        MainKeepsAttempts(cfg, Run(cfg, Start(cfg, pre), front).value, front, a);
      }
    }
  }

  /** No block is tried more than three times, and a worker whose retries were not cut short fails only after the
      third. */
  lemma ThreeAttempts(cfg: Config, pre: set<Cid>, actions: seq<Action>, i: nat)
    requires Run(cfg, Start(cfg, pre), actions).Some?
    ensures Looks(actions, i) <= 3
    ensures Work(i, Count) in actions && !CutShort(actions, i) ==> Looks(actions, i) == 3
  {
    RunsKeepAttempts(cfg, pre, actions);
    RunsKeepOutcome(cfg, pre, actions);
    var s := Run(cfg, Start(cfg, pre), actions).value;
    if i < |s.jobs| {
      assert JobExplained(s.jobs[i].pc, actions, i);
      assert AttemptsKept(s.jobs[i].pc, Looks(actions, i), CutShort(actions, i));
    }
  }

  // ---- what a failure stops --------------------------------------------------------------------

  /** A failure has cancelled the queue, or the worker that announced it is about to. */
  ghost predicate CancelsKept(s: Sys) {
    s.once ==> s.cancelled || exists i :: 0 <= i < |s.jobs| && s.jobs[i].pc.Cancelling?
  }

  lemma StepKeepsCancels(cfg: Config, s: Sys, a: Action)
    requires CancelsKept(s) && Step(cfg, s, a).Some?
    ensures CancelsKept(Step(cfg, s, a).value)
  {
    var u := Step(cfg, s, a).value;
    if a.Work? {
      WorkerFrame(cfg, s, a.job, a.step);
      if s.once && !s.cancelled {
        var i :| 0 <= i < |s.jobs| && s.jobs[i].pc.Cancelling?;
        assert u.cancelled || u.jobs[i].pc.Cancelling?;
      } else if u.once && !u.cancelled {
        assert u.jobs[a.job].pc.Cancelling?;
      }
    } else {
      MainFrame(cfg, s, a);
      if s.once && !s.cancelled {
        var i :| 0 <= i < |s.jobs| && s.jobs[i].pc.Cancelling?;
        assert u.jobs[i].pc.Cancelling?;
      }
    }
  }

  /** The first failure cancels the queue before StopWait returns. */
  lemma {:induction false} FailureCancels(cfg: Config, pre: set<Cid>, actions: seq<Action>)
    requires Run(cfg, Start(cfg, pre), actions).Some?
    ensures var s := Run(cfg, Start(cfg, pre), actions).value;
            CancelsKept(s) && (Waited(s.phase) && WorkerFailed(actions) ==> s.cancelled)
  {
    if actions != [] {
      var front, a := actions[..|actions| - 1], actions[|actions| - 1];
      FailureCancels(cfg, pre, front);
      StepKeepsCancels(cfg, Run(cfg, Start(cfg, pre), front).value, a);
    }
    RunsKeepErrors(cfg, pre, actions);
    RunsKeepOutcome(cfg, pre, actions);
    var s := Run(cfg, Start(cfg, pre), actions).value;
    if Waited(s.phase) {
      ErrorsAreTold(s, actions);
      assert forall i :: 0 <= i < |s.jobs| ==> Ended(s.jobs[i].pc);
    }
  }

  /** How often a worker has cancelled the queue. */
  function Cancels(actions: seq<Action>): nat {
    if actions == [] then 0
    else
      var a := actions[|actions| - 1];
      Cancels(actions[..|actions| - 1]) + if a.Work? && a.step.Cancel? then 1 else 0
  }

  /** Before the first announcement nobody cancels; afterwards the one who made it is about to, or has done so. */
  ghost predicate OneCancels(s: Sys, cancels: nat) {
    && (!s.once ==> cancels == 0 && forall i :: 0 <= i < |s.jobs| ==> !s.jobs[i].pc.Cancelling?)
    && (s.once && cancels == 0 ==> exists i :: IsCanceller(s, i))
    && (s.once && cancels > 0 ==> cancels == 1 && forall i :: 0 <= i < |s.jobs| ==> !s.jobs[i].pc.Cancelling?)
  }

  predicate IsCanceller(s: Sys, i: int) {
    && 0 <= i < |s.jobs| && s.jobs[i].pc.Cancelling?
    && forall j :: 0 <= j < |s.jobs| && j != i ==> !s.jobs[j].pc.Cancelling?
  }

  lemma WorkerCancelsOnce(cfg: Config, s: Sys, i: nat, w: WorkStep, cancels: nat)
    requires OneCancels(s, cancels) && WorkerStep(cfg, s, i, w).Some?
    ensures OneCancels(WorkerStep(cfg, s, i, w).value, cancels + if w.Cancel? then 1 else 0)
  {
    var u := WorkerStep(cfg, s, i, w).value;
    WorkerFrame(cfg, s, i, w);
    if s.once && cancels == 0 {
      var k :| IsCanceller(s, k);
      assert k == i || IsCanceller(u, k);
    } else if !s.once && w.Announce? {
      assert IsCanceller(u, i);
    }
  }

  lemma MainCancelsNothing(cfg: Config, s: Sys, a: Action, cancels: nat)
    requires OneCancels(s, cancels) && !a.Work? && Step(cfg, s, a).Some?
    ensures OneCancels(Step(cfg, s, a).value, cancels)
  {
    MainFrame(cfg, s, a);
    if s.once && cancels == 0 {
      var k :| IsCanceller(s, k);
      assert IsCanceller(Step(cfg, s, a).value, k);
    }
  }

  /** However many workers fail, only the first to announce it cancels the queue, once. */
  lemma {:induction false} QueueIsCancelledOnce(cfg: Config, pre: set<Cid>, actions: seq<Action>)
    requires Run(cfg, Start(cfg, pre), actions).Some?
    ensures Cancels(actions) <= 1 && OneCancels(Run(cfg, Start(cfg, pre), actions).value, Cancels(actions))
  {
    if actions != [] {
      var front, a := actions[..|actions| - 1], actions[|actions| - 1];
      QueueIsCancelledOnce(cfg, pre, front);
      if a.Work? {
        WorkerCancelsOnce(cfg, Run(cfg, Start(cfg, pre), front).value, a.job, a.step, Cancels(front));
      } else {
        MainCancelsNothing(cfg, Run(cfg, Start(cfg, pre), front).value, a, Cancels(front));
      }
    }
  }

  /** How many blocks can still be asked for: the loop ends at its next look at the context. */
  function StillToRead(p: Phase): nat {
    if p.Reading? || p.MarkingDone? then 1 else 0
  }

  /** A job that has not reached its first attempt never will. */
  predicate NotTried(pc: JobPc) {
    pc.Queued? || pc.Started? || pc.Dropped?
  }

  /** Nor does it start. */
  predicate Stopped(pc: JobPc) {
    pc.Queued? || pc.Dropped?
  }

  lemma CancelledStep(cfg: Config, s: Sys, a: Action)
    requires s.cancelled && Step(cfg, s, a).Some?
    ensures var u := Step(cfg, s, a).value;
            && u.cancelled && |u.jobs| == |s.jobs|
            && |u.returned| + StillToRead(u.phase) <= |s.returned| + StillToRead(s.phase)
            && (forall i :: 0 <= i < |s.jobs| && NotTried(s.jobs[i].pc) ==> NotTried(u.jobs[i].pc))
            && (forall i :: 0 <= i < |s.jobs| && Stopped(s.jobs[i].pc) ==> Stopped(u.jobs[i].pc))
  {
    if a.Work? {
      WorkerFrame(cfg, s, a.job, a.step);
    }
  }

  /** Once the queue is cancelled no job is added or started, a started one that has not reached its first attempt
      is never tried, and at most one more block is asked for. */
  lemma {:induction false} CancelledStopsWork(cfg: Config, s: Sys, actions: seq<Action>)
    requires s.cancelled && Run(cfg, s, actions).Some?
    ensures var u := Run(cfg, s, actions).value;
            && u.cancelled && |u.jobs| == |s.jobs|
            && |u.returned| + StillToRead(u.phase) <= |s.returned| + StillToRead(s.phase)
            && (forall i :: 0 <= i < |s.jobs| && NotTried(s.jobs[i].pc) ==> NotTried(u.jobs[i].pc))
            && (forall i :: 0 <= i < |s.jobs| && Stopped(s.jobs[i].pc) ==> Stopped(u.jobs[i].pc))
  {
    if actions != [] {
      CancelledStopsWork(cfg, s, actions[..|actions| - 1]);
      CancelledStep(cfg, Run(cfg, s, actions[..|actions| - 1]).value, actions[|actions| - 1]);
    }
  }

  // ---- which objects are uploaded --------------------------------------------------------------

  /** Some job uploaded the object with this CID. */
  ghost predicate UploadedBy(s: Sys, actions: seq<Action>, c: Cid) {
    exists i :: 0 <= i < |s.jobs| && Work(i, Upload(true)) in actions && NormalizeCid(s.jobs[i].block.cid) == c
  }

  /** In every run exactly the objects of successful uploads are stored. */
  lemma {:induction false} UploadsAreExact(cfg: Config, pre: set<Cid>, actions: seq<Action>, c: Cid)
    requires Run(cfg, Start(cfg, pre), actions).Some?
    ensures var s := Run(cfg, Start(cfg, pre), actions).value;
            && (c in s.stored <==> UploadedBy(s, actions, c))
            && forall i: nat, w :: Work(i, w) in actions ==> i < |s.jobs|
  {
    if actions != [] {
      var front, a := actions[..|actions| - 1], actions[|actions| - 1];
      assert actions == front + [a];
      UploadsAreExact(cfg, pre, front, c);
      UploadsGrow(cfg, Run(cfg, Start(cfg, pre), front).value, front, a, c);
    }
  }

  lemma UploadsGrow(cfg: Config, s: Sys, front: seq<Action>, a: Action, c: Cid)
    requires Step(cfg, s, a).Some? && forall i: nat, w :: Work(i, w) in front ==> i < |s.jobs|
    requires c in s.stored <==> UploadedBy(s, front, c)
    ensures var u := Step(cfg, s, a).value;
            && (c in u.stored <==> UploadedBy(u, front + [a], c))
            && forall i: nat, w :: Work(i, w) in front + [a] ==> i < |u.jobs|
  {
    var u := Step(cfg, s, a).value;
    if a.Work? {
      WorkerFrame(cfg, s, a.job, a.step);
      WorkerUploads(cfg, s, a.job, a.step);
    } else {
      MainFrame(cfg, s, a);
    }
    UploadedLater(s, u, front, a, c);
  }

  lemma WorkerUploads(cfg: Config, s: Sys, i: nat, w: WorkStep)
    requires WorkerStep(cfg, s, i, w).Some?
    ensures WorkerStep(cfg, s, i, w).value.stored ==
            s.stored + if w == Upload(true) then {NormalizeCid(s.jobs[i].block.cid)} else {}
  {
  }

  lemma UploadedLater(s: Sys, u: Sys, front: seq<Action>, a: Action, c: Cid)
    requires |s.jobs| <= |u.jobs| && forall i :: 0 <= i < |s.jobs| ==> u.jobs[i].block == s.jobs[i].block
    requires forall i: nat, w :: Work(i, w) in front ==> i < |s.jobs|
    requires a.Work? ==> a.job < |s.jobs|
    ensures UploadedBy(u, front + [a], c) <==>
            UploadedBy(s, front, c) ||
            (a.Work? && a.step == Upload(true) && NormalizeCid(s.jobs[a.job].block.cid) == c)
  {
    var actions := front + [a];
    if UploadedBy(s, front, c) {
      var i :| 0 <= i < |s.jobs| && Work(i, Upload(true)) in front && NormalizeCid(s.jobs[i].block.cid) == c;
      assert Work(i, Upload(true)) in actions && u.jobs[i].block == s.jobs[i].block;
    }
    if UploadedBy(u, actions, c) {
      var i :| 0 <= i < |u.jobs| && Work(i, Upload(true)) in actions && NormalizeCid(u.jobs[i].block.cid) == c;
      assert a == Work(i, Upload(true)) || Work(i, Upload(true)) in front;
      assert u.jobs[i].block == s.jobs[i].block;
    }
    if a.Work? && a.step == Upload(true) && NormalizeCid(s.jobs[a.job].block.cid) == c {
      assert Work(a.job, Upload(true)) in actions && u.jobs[a.job].block == s.jobs[a.job].block;
    }
  }

  // ---- which blocks are done -------------------------------------------------------------------

  /** The job counts as done: with a streaming store when its block is persisted, else when the calling goroutine
      has moved on after queueing it. */
  predicate JobDone(cfg: Config, s: Sys, i: nat)
    requires i < |s.jobs|
  {
    if cfg.streaming then s.jobs[i].pc.Persisted? else i < |s.jobs| - (if s.phase.MarkingDone? then 1 else 0)
  }

  ghost predicate DoneJob(cfg: Config, s: Sys, c: Cid) {
    exists i :: 0 <= i < |s.jobs| && JobDone(cfg, s, i) && s.jobs[i].block.cid == c
  }

  ghost predicate DoneExact(cfg: Config, s: Sys) {
    && (forall c :: c in s.done <==> DoneJob(cfg, s, c))
    && (s.phase.MarkingDone? ==>
          !cfg.streaming && s.jobs != [] && s.phase.cid == s.jobs[|s.jobs| - 1].block.cid)
  }

  /** At most job k becomes done. */
  lemma DoneFollows(cfg: Config, s: Sys, u: Sys, k: int)
    requires (forall c :: c in s.done <==> DoneJob(cfg, s, c)) && k < |s.jobs| <= |u.jobs|
    requires forall i :: 0 <= i < |s.jobs| ==> u.jobs[i].block == s.jobs[i].block
    requires forall i :: 0 <= i < |u.jobs| ==> (JobDone(cfg, u, i) <==> i == k || (i < |s.jobs| && JobDone(cfg, s, i)))
    requires u.done == s.done + if k >= 0 then {s.jobs[k].block.cid} else {}
    ensures forall c :: c in u.done <==> DoneJob(cfg, u, c)
  {
    forall c ensures c in u.done <==> DoneJob(cfg, u, c) {
      if DoneJob(cfg, s, c) {
        var j :| 0 <= j < |s.jobs| && JobDone(cfg, s, j) && s.jobs[j].block.cid == c;
        assert JobDone(cfg, u, j) && u.jobs[j].block.cid == c;
      }
      if DoneJob(cfg, u, c) {
        var j :| 0 <= j < |u.jobs| && JobDone(cfg, u, j) && u.jobs[j].block.cid == c;
        assert j != k ==> JobDone(cfg, s, j) && s.jobs[j].block.cid == c;
      }
      if k >= 0 && c == s.jobs[k].block.cid {
        assert JobDone(cfg, u, k) && u.jobs[k].block.cid == c;
      }
    }
  }

  lemma WorkerKeepsDone(cfg: Config, s: Sys, i: nat, w: WorkStep)
    requires DoneExact(cfg, s) && WorkerStep(cfg, s, i, w).Some?
    ensures DoneExact(cfg, WorkerStep(cfg, s, i, w).value)
  {
    WorkerFrame(cfg, s, i, w);
    WorkerAddsDone(cfg, s, i, w);
    DoneFollows(cfg, s, WorkerStep(cfg, s, i, w).value, if w.Persist? && cfg.streaming then i else -1);
  }

  lemma WorkerAddsDone(cfg: Config, s: Sys, i: nat, w: WorkStep)
    requires WorkerStep(cfg, s, i, w).Some?
    ensures var u := WorkerStep(cfg, s, i, w).value;
            && u.done == s.done + (if w.Persist? && cfg.streaming then {s.jobs[i].block.cid} else {})
            && (u.jobs[i].pc.Persisted? <==> w.Persist?) && !s.jobs[i].pc.Persisted?
  {
  }

  lemma MainKeepsDone(cfg: Config, s: Sys, a: Action)
    requires DoneExact(cfg, s) && !a.Work? && Step(cfg, s, a).Some?
    ensures DoneExact(cfg, Step(cfg, s, a).value)
  {
    MainFrame(cfg, s, a);
    MainAddsDone(cfg, s, a);
    DoneFollows(cfg, s, Step(cfg, s, a).value, if a.MarkDone? then |s.jobs| - 1 else -1);
  }

  lemma MainAddsDone(cfg: Config, s: Sys, a: Action)
    requires DoneExact(cfg, s) && !a.Work? && Step(cfg, s, a).Some?
    ensures var u := Step(cfg, s, a).value;
            && u.done == s.done + (if a.MarkDone? then {s.phase.cid} else {})
            && (a.MarkDone? <==> s.phase.MarkingDone? && !u.phase.MarkingDone?)
            && (u.phase.MarkingDone? ==>
                  !cfg.streaming && u.jobs != [] && u.phase.cid == u.jobs[|u.jobs| - 1].block.cid)
            && (u.jobs != s.jobs ==> !s.phase.MarkingDone? && (cfg.streaming || u.phase.MarkingDone?))
            && (u.phase.MarkingDone? && !s.phase.MarkingDone? ==> u.jobs != s.jobs)
  {
    match a
    case MarkDone =>
    case Submit =>
    case ContextEnds =>
    case _ =>
  }

  /** In every run exactly the blocks of these jobs are reported as done: whatever fails, with a streaming store
      those that were persisted, and otherwise those that were queued. */
  lemma {:induction false} DoneIsExact(cfg: Config, pre: set<Cid>, actions: seq<Action>)
    requires Run(cfg, Start(cfg, pre), actions).Some?
    ensures DoneExact(cfg, Run(cfg, Start(cfg, pre), actions).value)
  {
    if actions != [] {
      var front, a := actions[..|actions| - 1], actions[|actions| - 1];
      DoneIsExact(cfg, pre, front);
      if a.Work? {
        WorkerKeepsDone(cfg, Run(cfg, Start(cfg, pre), front).value, a.job, a.step);
      } else {
        MainKeepsDone(cfg, Run(cfg, Start(cfg, pre), front).value, a);
      }
    }
  }

  // ---- how many workers run --------------------------------------------------------------------

  lemma {:induction false} OneJobMoves(jobs: seq<Job>, i: nat, j: Job)
    requires i < |jobs|
    ensures RunningJobs(jobs[i := j]) ==
            RunningJobs(jobs) - (if Running(jobs[i].pc) then 1 else 0) + (if Running(j.pc) then 1 else 0)
  {
    var front := jobs[..|jobs| - 1];
    if i == |jobs| - 1 {
      assert jobs[i := j][..|jobs| - 1] == front;
    } else {
      assert jobs[i := j][..|jobs| - 1] == front[i := j];
      OneJobMoves(front, i, j);
    }
  }

  /** In every run at most as many jobs are under way as there are workers. */
  lemma {:induction false} WorkersAreBounded(cfg: Config, pre: set<Cid>, actions: seq<Action>)
    requires Run(cfg, Start(cfg, pre), actions).Some?
    ensures RunningJobs(Run(cfg, Start(cfg, pre), actions).value.jobs) <= cfg.workers
  {
    if actions != [] {
      var front, a := actions[..|actions| - 1], actions[|actions| - 1];
      WorkersAreBounded(cfg, pre, front);
      StepKeepsBound(cfg, Run(cfg, Start(cfg, pre), front).value, a);
    }
  }

  lemma StepKeepsBound(cfg: Config, s: Sys, a: Action)
    requires RunningJobs(s.jobs) <= cfg.workers && Step(cfg, s, a).Some?
    ensures RunningJobs(Step(cfg, s, a).value.jobs) <= cfg.workers
  {
    var u := Step(cfg, s, a).value;
    if a.Work? {
      WorkerFrame(cfg, s, a.job, a.step);
      OneJobMoves(s.jobs, a.job, u.jobs[a.job]);
      assert u.jobs == s.jobs[a.job := u.jobs[a.job]];
    } else {
      MainFrame(cfg, s, a);
      if u.jobs != s.jobs {
        assert u.jobs[..|s.jobs|] == s.jobs;
      }
    }
  }
}
