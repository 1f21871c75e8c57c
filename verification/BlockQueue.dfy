/** ProcessBlocks and its worker pool (internal/protocol/block_queue.go), on top of the metadata batcher.
    A step is one check of the context, one call into the block store, or one critical section. */
module BlockQueue {
  import opened Wrappers
  import opened Cids
  import opened ContentTables
  import BatcherSpec

  const MAX_RETRIES: nat := 3

  /** What the caller decides: how many workers, the batch size, whether the processor marks blocks as done
      only when they are persisted, whether there is a flusher, and whether the processor never returns the
      same CID twice. */
  datatype Config = Config(workers: nat, batchSize: int, streaming: bool, flusher: bool, distinct: bool)

  datatype JobPc =
    | Queued
    | Started                // the worker saw the context alive
    | Attempt(n: nat)        // AddBlock is called for the n-th time
    | Absent(n: nat)         // the store does not have the block yet
    | Uploaded(n: nat)       // the object is stored, its metadata comes next
    | AttemptFailed(n: nat)
    | Stored                 // AddBlock succeeded, onPersisted comes next
    | Failing                // the retries ended with an error
    | Counted                // failedCount is incremented
    | Cancelling             // the error is in errChan, the cancellation comes next
    | Persisted | Reported | Dropped

  datatype Job = Job(block: PinnedBlock, pc: JobPc)

  datatype Phase =
    | Reading
    | Submitting(block: PinnedBlock)
    | MarkingDone(cid: Cid)
    | Waiting
    | Flushing
    | Checking
    | Succeeded
    | Failed

  /** `errors` says that errChan holds an error; `stored` are the objects uploaded by this call; `outside`
      records that the context ended from outside, by its timeout or its parent, while it still mattered. */
  datatype Sys = Sys(phase: Phase, returned: seq<PinnedBlock>, jobs: seq<Job>, cancelled: bool, outside: bool,
                     once: bool, errors: bool, failedCount: nat, preexisting: set<Cid>, stored: set<Cid>,
                     done: set<Cid>, batcher: BatcherSpec.State)

  function Start(cfg: Config, preexisting: set<Cid>): Sys {
    Sys(Reading, [], [], false, false, false, false, 0, preexisting, {}, {}, BatcherSpec.NewState(cfg.batchSize))
  }

  datatype Action =
    // the calling goroutine
    | NextReturns(block: PinnedBlock) | NextEnds | NextFails | Submit | MarkDone | StopWait
    | FlushAll(flushed: Option<BatcherSpec.StoreError>) | CheckErrors
    // a worker
    | Work(job: nat, step: WorkStep)
    // outside
    | ContextEnds

  datatype WorkStep =
    | Begin | FirstTry | Look | Upload(ok: bool) | AddMetadata(outcome: Option<BatcherSpec.StoreError>)
    | Retry | GiveUp(bare: bool)
    | Persist | Count | Announce | Cancel

  /** StopWait has returned, and the call has not failed. */
  predicate Waited(phase: Phase) {
    phase.Flushing? || phase.Checking? || phase.Succeeded?
  }

  predicate Running(pc: JobPc) {
    !pc.Queued? && !Ended(pc)
  }

  predicate Ended(pc: JobPc) {
    pc.Persisted? || pc.Reported? || pc.Dropped?
  }

  function RunningJobs(jobs: seq<Job>): nat {
    if jobs == [] then 0 else RunningJobs(jobs[..|jobs| - 1]) + if Running(jobs[|jobs| - 1].pc) then 1 else 0
  }

  /** Blocks are filed under their normalised CID. */
  function CidsOf(bs: seq<PinnedBlock>): set<Cid> {
    set b | b in bs :: NormalizeCid(b.cid)
  }

  /** The CIDs in the batches that BatchPin accepted. */
  function WrittenCids(writes: seq<BatcherSpec.Write>): set<Cid> {
    if writes == [] then {}
    else
      var w := writes[|writes| - 1];
      WrittenCids(writes[..|writes| - 1]) + if w.ok then CidsOf(w.blocks) else {}
  }

  /** The block store finds its metadata. */
  predicate Known(s: Sys, c: Cid) {
    NormalizeCid(c) in s.preexisting || NormalizeCid(c) in WrittenCids(s.batcher.writes)
  }

  function MainStep(cfg: Config, s: Sys, a: Action): Option<Sys> {
    match a
    case NextReturns(b) =>
      if s.phase.Reading? && (cfg.distinct ==> NormalizeCid(b.cid) !in CidsOf(s.returned))
      then Some(s.(returned := s.returned + [b], phase := Submitting(b))) else None
    case NextEnds => if s.phase.Reading? then Some(s.(phase := Waiting)) else None
    case NextFails => if s.phase.Reading? then Some(s.(phase := Failed)) else None
    case Submit =>
      if !s.phase.Submitting? then None
      else if s.cancelled then Some(s.(phase := Waiting))
      else Some(s.(jobs := s.jobs + [Job(s.phase.block, Queued)],
                   phase := if cfg.streaming then Reading else MarkingDone(s.phase.block.cid)))
    case MarkDone =>
      if s.phase.MarkingDone? then Some(s.(done := s.done + {s.phase.cid}, phase := Reading)) else None
    case StopWait =>
      if s.phase.Waiting? && forall i :: 0 <= i < |s.jobs| ==> Ended(s.jobs[i].pc)
      then Some(s.(phase := Flushing)) else None
    case FlushAll(o) =>
      if !s.phase.Flushing? then None
      else if !cfg.flusher then Some(s.(phase := Checking))
      else
        var r := BatcherSpec.Flush(s.batcher, o);
        Some(s.(batcher := r.0, phase := if r.1.None? then Checking else Failed))
    case CheckErrors => if s.phase.Checking? then Some(s.(phase := if s.errors then Failed else Succeeded)) else None
    case _ => None
  }

  /** What a job does next; an error that wraps a context error does not count as a context error, and a bare
      one (which retry-go may return once the context has ended) is dropped. */
  function JobNext(s: Sys, j: Job, w: WorkStep): Option<JobPc> {
    match w
    case Begin => if j.pc.Queued? then Some(if s.cancelled then Dropped else Started) else None
    case FirstTry => if j.pc.Started? then Some(if s.cancelled then Dropped else Attempt(1)) else None
    case Look => if j.pc.Attempt? then Some(if Known(s, j.block.cid) then Stored else Absent(j.pc.n)) else None
    case Upload(ok) => if j.pc.Absent? then Some(if ok then Uploaded(j.pc.n) else AttemptFailed(j.pc.n)) else None
    case AddMetadata(o) =>
      if j.pc.Uploaded?
      then Some(if BatcherSpec.Add(s.batcher, j.block, o).1.None? then Stored else AttemptFailed(j.pc.n)) else None
    case Retry =>
      if j.pc.AttemptFailed? then Some(if j.pc.n < MAX_RETRIES then Attempt(j.pc.n + 1) else Failing) else None
    case GiveUp(bare) => if j.pc.AttemptFailed? && s.cancelled then Some(if bare then Dropped else Failing) else None
    case Persist => if j.pc.Stored? then Some(Persisted) else None
    case Count => if j.pc.Failing? then Some(Counted) else None
    case Announce => if j.pc.Counted? then Some(if s.once then Reported else Cancelling) else None
    case Cancel => if j.pc.Cancelling? then Some(Reported) else None
  }

  /** What the step does outside the job. */
  function JobEffect(cfg: Config, s: Sys, j: Job, w: WorkStep): Sys {
    match w
    case Upload(ok) => if ok then s.(stored := s.stored + {NormalizeCid(j.block.cid)}) else s
    case AddMetadata(o) => s.(batcher := BatcherSpec.Add(s.batcher, j.block, o).0)
    case Persist => if cfg.streaming then s.(done := s.done + {j.block.cid}) else s
    case Count => s.(failedCount := s.failedCount + 1)
    case Announce => s.(once := true, errors := true)
    case Cancel => s.(cancelled := true)
    case _ => s
  }

  function WorkerStep(cfg: Config, s: Sys, i: nat, w: WorkStep): Option<Sys> {
    if i >= |s.jobs| || JobNext(s, s.jobs[i], w).None? || (w.Begin? && RunningJobs(s.jobs) >= cfg.workers) then None
    else
      var pc := JobNext(s, s.jobs[i], w).value;
      Some(JobEffect(cfg, s, s.jobs[i], w).(jobs := s.jobs[i := s.jobs[i].(pc := pc)]))
  }

  function Step(cfg: Config, s: Sys, a: Action): Option<Sys> {
    match a
    case Work(i, w) => WorkerStep(cfg, s, i, w)
    case ContextEnds => Some(s.(cancelled := true, outside := s.outside || !Waited(s.phase)))
    case _ => MainStep(cfg, s, a)
  }

  function Run(cfg: Config, s: Sys, actions: seq<Action>): Option<Sys> {
    if actions == [] then Some(s)
    else
      match Run(cfg, s, actions[..|actions| - 1])
      case None => None
      case Some(u) => Step(cfg, u, actions[|actions| - 1])
  }

  /** What success promises: every block Next returned is stored, done, and in the tables. */
  predicate Complete(s: Sys) {
    forall k :: 0 <= k < |s.returned| ==> CompleteFor(s, s.returned[k].cid)
  }

  predicate CompleteFor(s: Sys, c: Cid) {
    (NormalizeCid(c) in s.preexisting || NormalizeCid(c) in s.stored) && c in s.done && Known(s, c)
  }

  // ---- what a step leaves alone ----------------------------------------------------------------

  predicate WorkerLeaves(s: Sys, u: Sys, i: nat) {
    && u.phase == s.phase && u.returned == s.returned && u.preexisting == s.preexisting && u.outside == s.outside
    && |u.jobs| == |s.jobs|
    && i < |s.jobs| && u.jobs[i].block == s.jobs[i].block
    && (forall j :: 0 <= j < |s.jobs| && j != i ==> u.jobs[j] == s.jobs[j])
  }

  lemma WorkerFrame(cfg: Config, s: Sys, i: nat, w: WorkStep)
    requires WorkerStep(cfg, s, i, w).Some?
    ensures var u := WorkerStep(cfg, s, i, w).value;
            && WorkerLeaves(s, u, i) && u.jobs[i].pc == JobNext(s, s.jobs[i], w).value
            && (!w.AddMetadata? ==> u.batcher == s.batcher) && (!w.Upload? ==> u.stored == s.stored)
  {
  }

  lemma WorkerDone(cfg: Config, s: Sys, i: nat, w: WorkStep)
    requires WorkerStep(cfg, s, i, w).Some?
    ensures var u := WorkerStep(cfg, s, i, w).value;
            && s.done <= u.done
            && (cfg.streaming && u.jobs[i].pc.Persisted? && !s.jobs[i].pc.Persisted? ==> s.jobs[i].block.cid in u.done)
  {
  }

  predicate MainLeaves(s: Sys, u: Sys) {
    && u.preexisting == s.preexisting && u.stored == s.stored && u.batcher.accepted == s.batcher.accepted
    && s.done <= u.done
    && (u.jobs == s.jobs || (s.phase.Submitting? && u.jobs == s.jobs + [Job(s.phase.block, Queued)]))
  }

  lemma MainFrame(cfg: Config, s: Sys, a: Action)
    requires !a.Work? && Step(cfg, s, a).Some?
    ensures MainLeaves(s, Step(cfg, s, a).value) && (!a.FlushAll? ==> Step(cfg, s, a).value.batcher == s.batcher)
  {
  }

  // ---- errors ----------------------------------------------------------------------------------

  predicate Told(pc: JobPc) {
    pc.Counted? || pc.Cancelling? || pc.Reported?
  }

  ghost predicate FailuresTold(s: Sys) {
    s.failedCount > 0 ==> exists i :: 0 <= i < |s.jobs| && Told(s.jobs[i].pc)
  }

  /** The first failure is announced before the queue is cancelled. */
  predicate JobErrorKept(s: Sys, pc: JobPc) {
    && (pc.Cancelling? || pc.Reported? ==> s.errors)
    && (pc.Dropped? ==> s.errors || s.outside || s.phase.Failed?)
  }

  predicate ErrorsKept(s: Sys) {
    && (s.once <==> s.errors)
    && (s.cancelled ==> s.errors || s.outside || s.phase.Failed? || Waited(s.phase))
    && (forall i :: 0 <= i < |s.jobs| ==> JobErrorKept(s, s.jobs[i].pc))
  }

  /** After StopWait no worker does anything. */
  predicate Quiet(s: Sys) {
    && (Waited(s.phase) ==> forall i :: 0 <= i < |s.jobs| ==> Ended(s.jobs[i].pc))
    && (s.phase.Succeeded? ==> !s.errors)
  }

  lemma WorkerKeepsErrors(cfg: Config, s: Sys, i: nat, w: WorkStep)
    requires ErrorsKept(s) && Quiet(s) && WorkerStep(cfg, s, i, w).Some?
    ensures ErrorsKept(WorkerStep(cfg, s, i, w).value)
  {
    WorkerFrame(cfg, s, i, w);
  }

  lemma MainKeepsErrors(cfg: Config, s: Sys, a: Action)
    requires ErrorsKept(s) && !a.Work? && Step(cfg, s, a).Some?
    ensures ErrorsKept(Step(cfg, s, a).value)
  {
    MainFrame(cfg, s, a);
  }

  lemma StepKeepsTold(cfg: Config, s: Sys, a: Action)
    requires FailuresTold(s) && Step(cfg, s, a).Some?
    ensures FailuresTold(Step(cfg, s, a).value)
  {
    var u := Step(cfg, s, a).value;
    if s.failedCount > 0 {
      var i :| 0 <= i < |s.jobs| && Told(s.jobs[i].pc);
      assert Told(u.jobs[i].pc);
    } else if a.Work? && a.step.Count? {
      assert Told(u.jobs[a.job].pc);
    }
  }

  lemma StepKeepsQuiet(cfg: Config, s: Sys, a: Action)
    requires Quiet(s) && Step(cfg, s, a).Some?
    ensures Quiet(Step(cfg, s, a).value)
  {
    if a.Work? {
      WorkerFrame(cfg, s, a.job, a.step);
    }
  }

  lemma {:induction false} RunsKeepErrors(cfg: Config, pre: set<Cid>, actions: seq<Action>)
    requires Run(cfg, Start(cfg, pre), actions).Some?
    ensures var s := Run(cfg, Start(cfg, pre), actions).value; ErrorsKept(s) && FailuresTold(s) && Quiet(s)
  {
    if actions != [] {
      var front, a := actions[..|actions| - 1], actions[|actions| - 1];
      RunsKeepErrors(cfg, pre, front);
      var s := Run(cfg, Start(cfg, pre), front).value;
      if a.Work? {
        WorkerKeepsErrors(cfg, s, a.job, a.step);
      } else {
        MainKeepsErrors(cfg, s, a);
      }
      StepKeepsTold(cfg, s, a);
      StepKeepsQuiet(cfg, s, a);
    }
  }

  /** Any worker failure makes the call return an error, with or without cancellation from outside. */
  lemma FailureIsReported(cfg: Config, pre: set<Cid>, actions: seq<Action>)
    requires Run(cfg, Start(cfg, pre), actions).Some?
    requires Run(cfg, Start(cfg, pre), actions).value.failedCount > 0
    ensures !Run(cfg, Start(cfg, pre), actions).value.phase.Succeeded?
  {
    RunsKeepErrors(cfg, pre, actions);
  }

  // ---- the context -----------------------------------------------------------------------------

  /** The context ends from outside before StopWait has returned. */
  predicate EndsEarly(actions: seq<Action>) {
    exists k :: 0 <= k < |actions| && actions[k] == ContextEnds && StopWait !in actions[..k]
  }

  lemma EndsEarlyLater(front: seq<Action>, a: Action)
    requires !EndsEarly(front + [a])
    ensures !EndsEarly(front) && (a == ContextEnds ==> StopWait in front)
  {
    var actions := front + [a];
    assert actions[..|front|] == front;
    assert forall k :: 0 <= k < |front| ==> actions[..k] == front[..k];
    assert a == ContextEnds ==> actions[|front|] == ContextEnds;
  }

  lemma StepSeen(cfg: Config, s: Sys, a: Action)
    requires Step(cfg, s, a).Some?
    ensures var u := Step(cfg, s, a).value;
            && (Waited(s.phase) || s.phase.Failed? ==> Waited(u.phase) || u.phase.Failed?)
            && (a == StopWait ==> Waited(u.phase)) && (s.phase.Failed? ==> u.phase.Failed?)
            && (u.outside && !s.outside ==> a == ContextEnds && !Waited(s.phase))
  {
    if a.Work? {
      WorkerFrame(cfg, s, a.job, a.step);
    }
  }

  /** A context that ends only once StopWait has returned does no harm. */
  lemma {:induction false} LateEndIsSeen(cfg: Config, pre: set<Cid>, actions: seq<Action>)
    requires Run(cfg, Start(cfg, pre), actions).Some?
    ensures var s := Run(cfg, Start(cfg, pre), actions).value;
            && (StopWait in actions ==> Waited(s.phase) || s.phase.Failed?)
            && (!EndsEarly(actions) ==> !s.outside || s.phase.Failed?)
  {
    if actions != [] {
      var front, a := actions[..|actions| - 1], actions[|actions| - 1];
      assert actions == front + [a];
      LateEndIsSeen(cfg, pre, front);
      StepSeen(cfg, Run(cfg, Start(cfg, pre), front).value, a);
      if !EndsEarly(actions) {
        EndsEarlyLater(front, a);
      }
    }
  }
}
