/** When ProcessBlocks can be trusted: under which configurations success means that every returned block
    is stored, done and in the tables. */
module QueueSafety {
  import opened Wrappers
  import opened Cids
  import opened ContentTables
  import PinTheorems
  import BatcherSpec
  import opened BlockQueue

  /** The configurations for which success is honest. Without a flusher the last batch stays in the buffer;
      and if the same CID can be in two workers' hands, the retry of the one whose batch failed can find the
      other's metadata and forget the failure. A batch of one block is written at once. */
  predicate Trustworthy(cfg: Config) {
    cfg.batchSize <= 1 || (cfg.flusher && (cfg.distinct || cfg.workers <= 1))
  }

  // ---- the batcher -----------------------------------------------------------------------------

  predicate BatcherKept(cfg: Config, s: Sys) {
    && BatcherSpec.Accounted(s.batcher) && !s.batcher.closed && s.batcher.batchSize == cfg.batchSize
    && (cfg.flusher && (s.phase.Checking? || s.phase.Succeeded?) ==> s.batcher.batch == [])
  }

  lemma {:induction false} WrittenAppend(writes: seq<BatcherSpec.Write>, w: BatcherSpec.Write)
    ensures WrittenCids(writes + [w]) == WrittenCids(writes) + if w.ok then CidsOf(w.blocks) else {}
  {
    assert (writes + [w])[..|writes|] == writes;
  }

  /** With no failed write, exactly the accepted blocks that are not in the buffer are written. */
  lemma {:induction false} AllWritten(writes: seq<BatcherSpec.Write>)
    requires forall i :: 0 <= i < |writes| ==> writes[i].ok
    ensures WrittenCids(writes) == CidsOf(BatcherSpec.Blocks(writes))
  {
    if writes != [] {
      AllWritten(writes[..|writes| - 1]);
    }
  }

  lemma {:induction false} WrittenIsAccepted(writes: seq<BatcherSpec.Write>)
    ensures WrittenCids(writes) <= CidsOf(BatcherSpec.Blocks(writes))
  {
    if writes != [] {
      WrittenIsAccepted(writes[..|writes| - 1]);
    }
  }

  lemma WrittenFromAccepted(s: BatcherSpec.State)
    requires BatcherSpec.Accounted(s)
    ensures WrittenCids(s.writes) <= CidsOf(s.accepted)
  {
    WrittenIsAccepted(s.writes);
    assert forall x :: x in BatcherSpec.Blocks(s.writes) ==> x in s.accepted;
  }

  /** An Add makes at most one write, and it fails exactly when its write fails or an earlier one did. */
  lemma AddEffect(s: BatcherSpec.State, b: PinnedBlock, o: Option<BatcherSpec.StoreError>)
    requires BatcherSpec.Accounted(s) && !s.closed
    ensures var (t, e) := BatcherSpec.Add(s, b, o);
            && (t.writes == s.writes || t.writes == s.writes + [BatcherSpec.Write(s.batch + [b], e.None?)])
            && (e == None ==> s.err == None && t.err == None && t.accepted == s.accepted + [b])
            && (e.Some? ==> t.err.Some? && (t.accepted == s.accepted || t.accepted == s.accepted + [b]))
  {
  }

  lemma AddGrowsWritten(s: BatcherSpec.State, b: PinnedBlock, o: Option<BatcherSpec.StoreError>)
    requires BatcherSpec.Accounted(s) && !s.closed
    ensures var (t, e) := BatcherSpec.Add(s, b, o);
            && WrittenCids(s.writes) <= WrittenCids(t.writes)
            && (e.Some? ==> WrittenCids(t.writes) == WrittenCids(s.writes))
            && CidsOf(s.accepted) <= CidsOf(t.accepted) <= CidsOf(s.accepted) + {NormalizeCid(b.cid)}
  {
  }

  /** What an Add writes was accepted, and after an error it writes nothing. */
  lemma AddWritesAccepted(s: BatcherSpec.State, b: PinnedBlock, o: Option<BatcherSpec.StoreError>)
    requires BatcherSpec.Accounted(s) && !s.closed
    ensures WrittenCids(BatcherSpec.Add(s, b, o).0.writes) <=
            WrittenCids(s.writes) + if s.err == None then CidsOf(s.accepted) + {NormalizeCid(b.cid)} else {}
  {
  }

  lemma AcceptGrows(bs: seq<PinnedBlock>, b: PinnedBlock)
    ensures CidsOf(bs + [b]) == CidsOf(bs) + {NormalizeCid(b.cid)}
  {
    assert forall x :: x in bs ==> x in bs + [b];
    assert b in bs + [b];
  }

  /** Batches of one block are written before Add returns. */
  lemma AddWrites(s: BatcherSpec.State, b: PinnedBlock, o: Option<BatcherSpec.StoreError>)
    requires BatcherSpec.Accounted(s) && !s.closed && s.batchSize <= 1 && BatcherSpec.Add(s, b, o).1 == None
    ensures NormalizeCid(b.cid) in WrittenCids(BatcherSpec.Add(s, b, o).0.writes)
  {
    WrittenAppend(s.writes, BatcherSpec.Write([b], true));
    assert s.batch + [b] == [b];
  }

  lemma StepKeepsBatcher(cfg: Config, s: Sys, a: Action)
    requires BatcherKept(cfg, s) && Quiet(s) && Step(cfg, s, a).Some?
    ensures BatcherKept(cfg, Step(cfg, s, a).value)
  {
    if a.Work? {
      WorkerFrame(cfg, s, a.job, a.step);
      if a.step.AddMetadata? {
        BatcherSpec.StepKeepsAccount(s.batcher, BatcherSpec.OpAdd(s.jobs[a.job].block, a.step.outcome));
      }
    } else {
      MainKeepsBatcher(cfg, s, a);
    }
  }

  lemma MainKeepsBatcher(cfg: Config, s: Sys, a: Action)
    requires BatcherKept(cfg, s) && !a.Work? && Step(cfg, s, a).Some?
    ensures BatcherKept(cfg, Step(cfg, s, a).value)
  {
  }

  /** The tables only grow. */
  lemma KnownStays(cfg: Config, s: Sys, a: Action)
    requires BatcherKept(cfg, s) && Step(cfg, s, a).Some?
    ensures var u := Step(cfg, s, a).value;
            u.preexisting == s.preexisting && WrittenCids(s.batcher.writes) <= WrittenCids(u.batcher.writes)
            && CidsOf(s.batcher.accepted) <= CidsOf(u.batcher.accepted)
  {
    if a.Work? {
      WorkerFrame(cfg, s, a.job, a.step);
      if a.step.AddMetadata? {
        AddGrowsWritten(s.batcher, s.jobs[a.job].block, a.step.outcome);
      }
    } else {
      MainFrame(cfg, s, a);
      if a.FlushAll? && cfg.flusher {
        FlushGrowsWritten(s.batcher, a.flushed);
      }
    }
  }

  lemma FlushGrowsWritten(s: BatcherSpec.State, o: Option<BatcherSpec.StoreError>)
    ensures WrittenCids(s.writes) <= WrittenCids(BatcherSpec.Flush(s, o).0.writes)
  {
    WrittenAppend(s.writes, BatcherSpec.Write(s.batch, o.None?));
  }

  // ---- the blocks ------------------------------------------------------------------------------

  function JobBlocks(jobs: seq<Job>): seq<PinnedBlock> {
    seq(|jobs|, i requires 0 <= i < |jobs| => jobs[i].block)
  }

  /** Every returned block has a job, unless the queue was cancelled before StopWait returned. */
  predicate Covered(s: Sys) {
    (s.errors || s.outside) || s.returned == JobBlocks(s.jobs) + (if s.phase.Submitting? then [s.phase.block] else [])
  }

  lemma StepKeepsCovered(cfg: Config, s: Sys, a: Action)
    requires Covered(s) && ErrorsKept(s) && Step(cfg, s, a).Some?
    ensures Covered(Step(cfg, s, a).value)
  {
  }

  /** Done is recorded when the block is persisted, or as soon as it is queued. */
  predicate DoneKept(cfg: Config, s: Sys) {
    forall i :: 0 <= i < |s.jobs| ==>
                  if cfg.streaming then s.jobs[i].pc.Persisted? ==> s.jobs[i].block.cid in s.done
                  else s.jobs[i].block.cid in s.done || s.phase == MarkingDone(s.jobs[i].block.cid)
  }

  lemma StepKeepsDone(cfg: Config, s: Sys, a: Action)
    requires DoneKept(cfg, s) && Step(cfg, s, a).Some?
    ensures DoneKept(cfg, Step(cfg, s, a).value)
  {
    if a.Work? {
      WorkerFrame(cfg, s, a.job, a.step);
      WorkerDone(cfg, s, a.job, a.step);
      WorkerKeepsDone(cfg, s, WorkerStep(cfg, s, a.job, a.step).value, a.job);
    } else {
      MainKeepsDone(cfg, s, a);
    }
  }

  lemma WorkerKeepsDone(cfg: Config, s: Sys, u: Sys, i: nat)
    requires DoneKept(cfg, s) && WorkerLeaves(s, u, i) && s.done <= u.done
    requires cfg.streaming && u.jobs[i].pc.Persisted? && !s.jobs[i].pc.Persisted? ==> s.jobs[i].block.cid in u.done
    ensures DoneKept(cfg, u)
  {
  }

  lemma MainKeepsDone(cfg: Config, s: Sys, a: Action)
    requires DoneKept(cfg, s) && !a.Work? && Step(cfg, s, a).Some?
    ensures DoneKept(cfg, Step(cfg, s, a).value)
  {
    MainFrame(cfg, s, a);
  }

  predicate Through(pc: JobPc) {
    pc.Stored? || pc.Persisted?
  }

  /** Every accepted block has been uploaded. */
  predicate UploadsKept(s: Sys) {
    && CidsOf(s.batcher.accepted) <= s.stored
    && (forall i :: 0 <= i < |s.jobs| && s.jobs[i].pc.Uploaded? ==> NormalizeCid(s.jobs[i].block.cid) in s.stored)
  }

  lemma StepKeepsUploads(cfg: Config, s: Sys, a: Action)
    requires BatcherKept(cfg, s) && UploadsKept(s) && Step(cfg, s, a).Some?
    ensures UploadsKept(Step(cfg, s, a).value)
  {
    if a.Work? {
      WorkerFrame(cfg, s, a.job, a.step);
      WorkerKeepsUploads(cfg, s, a.job, a.step);
    } else {
      MainFrame(cfg, s, a);
    }
  }

  lemma WorkerKeepsUploads(cfg: Config, s: Sys, i: nat, w: WorkStep)
    requires BatcherKept(cfg, s) && UploadsKept(s) && WorkerStep(cfg, s, i, w).Some?
    ensures UploadsKept(WorkerStep(cfg, s, i, w).value)
  {
    WorkerFrame(cfg, s, i, w);
    if w.AddMetadata? {
      AddGrowsWritten(s.batcher, s.jobs[i].block, w.outcome);
    }
  }

  /** A block whose AddBlock succeeded was there before or was given to the batcher; with batches of one it is
      in the tables. */
  predicate StoredKept(cfg: Config, s: Sys) {
    forall i :: 0 <= i < |s.jobs| && Through(s.jobs[i].pc) ==> AddedOrOld(cfg, s, s.jobs[i].block.cid)
  }

  predicate AddedOrOld(cfg: Config, s: Sys, c: Cid) {
    && (NormalizeCid(c) in s.preexisting || NormalizeCid(c) in CidsOf(s.batcher.accepted))
    && (cfg.batchSize <= 1 ==> Known(s, c))
  }

  lemma JobBecomesStored(cfg: Config, s: Sys, i: nat, w: WorkStep)
    requires BatcherKept(cfg, s) && StoredKept(cfg, s) && WorkerStep(cfg, s, i, w).Some?
    requires var u := WorkerStep(cfg, s, i, w).value; Through(u.jobs[i].pc)
    ensures AddedOrOld(cfg, WorkerStep(cfg, s, i, w).value, s.jobs[i].block.cid)
  {
    match w
    case AddMetadata(o) =>
      AddEffect(s.batcher, s.jobs[i].block, o);
      AcceptGrows(s.batcher.accepted, s.jobs[i].block);
      if cfg.batchSize <= 1 {
        AddWrites(s.batcher, s.jobs[i].block, o);
      }
    case Look => WrittenFromAccepted(s.batcher);
    case _ =>
  }

  lemma StepKeepsStored(cfg: Config, s: Sys, a: Action)
    requires BatcherKept(cfg, s) && StoredKept(cfg, s) && Step(cfg, s, a).Some?
    ensures StoredKept(cfg, Step(cfg, s, a).value)
  {
    var u := Step(cfg, s, a).value;
    KnownStays(cfg, s, a);
    assert forall c :: AddedOrOld(cfg, s, c) ==> AddedOrOld(cfg, u, c);
    if a.Work? {
      WorkerFrame(cfg, s, a.job, a.step);
      if Through(u.jobs[a.job].pc) {
        JobBecomesStored(cfg, s, a.job, a.step);
      }
    } else {
      MainFrame(cfg, s, a);
    }
  }

  // ---- no block is in two workers' hands -------------------------------------------------------

  predicate Holding(pc: JobPc) {
    pc.Absent? || pc.Uploaded?
  }

  predicate BeforeAdd(pc: JobPc) {
    pc.Queued? || pc.Started? || pc.Attempt? || Holding(pc) || pc.AttemptFailed?
  }

  /** With distinct CIDs, only a job's own Add hands its CID to the batcher. */
  predicate DistinctKept(cfg: Config, s: Sys) {
    && CidsOf(JobBlocks(s.jobs)) <= CidsOf(s.returned)
    && CidsOf(s.batcher.accepted) <= CidsOf(JobBlocks(s.jobs))
    && (cfg.distinct && s.phase.Submitting? ==> NormalizeCid(s.phase.block.cid) !in CidsOf(JobBlocks(s.jobs)))
    && (s.phase.Submitting? ==> NormalizeCid(s.phase.block.cid) in CidsOf(s.returned))
    && (cfg.distinct ==> forall i, j :: 0 <= i < j < |s.jobs| ==>
          NormalizeCid(s.jobs[i].block.cid) != NormalizeCid(s.jobs[j].block.cid))
  }

  predicate NotAddedYet(cfg: Config, s: Sys) {
    cfg.distinct && s.batcher.err == None ==>
      forall i :: 0 <= i < |s.jobs| && BeforeAdd(s.jobs[i].pc) ==>
                    NormalizeCid(s.jobs[i].block.cid) !in CidsOf(s.batcher.accepted)
  }

  lemma JobBlocksAppend(jobs: seq<Job>, j: Job)
    ensures CidsOf(JobBlocks(jobs + [j])) == CidsOf(JobBlocks(jobs)) + {NormalizeCid(j.block.cid)}
  {
    assert JobBlocks(jobs + [j]) == JobBlocks(jobs) + [j.block];
    AcceptGrows(JobBlocks(jobs), j.block);
  }

  lemma JobCidIn(jobs: seq<Job>, i: nat)
    requires i < |jobs|
    ensures NormalizeCid(jobs[i].block.cid) in CidsOf(JobBlocks(jobs))
  {
    assert JobBlocks(jobs)[i] in JobBlocks(jobs);
  }

  lemma WorkerKeepsDistinct(cfg: Config, s: Sys, i: nat, w: WorkStep)
    requires BatcherKept(cfg, s) && DistinctKept(cfg, s) && WorkerStep(cfg, s, i, w).Some?
    ensures DistinctKept(cfg, WorkerStep(cfg, s, i, w).value)
  {
    var u := WorkerStep(cfg, s, i, w).value;
    WorkerFrame(cfg, s, i, w);
    assert JobBlocks(u.jobs) == JobBlocks(s.jobs);
    if w.AddMetadata? {
      AddGrowsWritten(s.batcher, s.jobs[i].block, w.outcome);
      JobCidIn(s.jobs, i);
    }
  }

  lemma MainKeepsDistinct(cfg: Config, s: Sys, a: Action)
    requires DistinctKept(cfg, s) && !a.Work? && Step(cfg, s, a).Some?
    ensures DistinctKept(cfg, Step(cfg, s, a).value)
  {
    MainFrame(cfg, s, a);
    if a.Submit? && !s.cancelled {
      JobBlocksAppend(s.jobs, Job(s.phase.block, Queued));
      forall i | 0 <= i < |s.jobs| ensures NormalizeCid(s.jobs[i].block.cid) in CidsOf(JobBlocks(s.jobs)) {
        JobCidIn(s.jobs, i);
      }
    } else if a.NextReturns? {
      AcceptGrows(s.returned, a.block);
    }
  }

  lemma StepKeepsNotAdded(cfg: Config, s: Sys, a: Action)
    requires BatcherKept(cfg, s) && DistinctKept(cfg, s) && NotAddedYet(cfg, s) && Step(cfg, s, a).Some?
    ensures NotAddedYet(cfg, Step(cfg, s, a).value)
  {
    if a.Work? {
      var u := WorkerStep(cfg, s, a.job, a.step).value;
      WorkerFrame(cfg, s, a.job, a.step);
      if a.step.AddMetadata? {
        AddKeepsNotAdded(cfg, s, u, a.job, a.step.outcome);
      } else {
        MoveKeepsNotAdded(cfg, s, u, a.job);
      }
    } else {
      MainKeepsNotAdded(cfg, s, a);
    }
  }

  lemma AddKeepsNotAdded(cfg: Config, s: Sys, u: Sys, i: nat, o: Option<BatcherSpec.StoreError>)
    requires BatcherKept(cfg, s) && DistinctKept(cfg, s) && NotAddedYet(cfg, s) && WorkerLeaves(s, u, i)
    requires s.jobs[i].pc.Uploaded? && u.batcher == BatcherSpec.Add(s.batcher, s.jobs[i].block, o).0
    requires BatcherSpec.Add(s.batcher, s.jobs[i].block, o).1.None? ==> u.jobs[i].pc == Stored
    ensures NotAddedYet(cfg, u)
  {
    AddEffect(s.batcher, s.jobs[i].block, o);
    AcceptGrows(s.batcher.accepted, s.jobs[i].block);
  }

  lemma MoveKeepsNotAdded(cfg: Config, s: Sys, u: Sys, i: nat)
    requires NotAddedYet(cfg, s) && WorkerLeaves(s, u, i) && u.batcher == s.batcher
    requires BeforeAdd(u.jobs[i].pc) ==> BeforeAdd(s.jobs[i].pc)
    ensures NotAddedYet(cfg, u)
  {
  }

  lemma MainKeepsNotAdded(cfg: Config, s: Sys, a: Action)
    requires DistinctKept(cfg, s) && NotAddedYet(cfg, s) && !a.Work? && Step(cfg, s, a).Some?
    ensures NotAddedYet(cfg, Step(cfg, s, a).value)
  {
    MainFrame(cfg, s, a);
  }

  /** A single worker runs one job at a time. */
  predicate OneRunning(cfg: Config, s: Sys) {
    cfg.workers <= 1 ==> forall i, j :: 0 <= i < j < |s.jobs| ==> !Running(s.jobs[i].pc) || !Running(s.jobs[j].pc)
  }

  lemma {:induction false} RunningIsCounted(jobs: seq<Job>, i: nat)
    requires i < |jobs| && Running(jobs[i].pc)
    ensures RunningJobs(jobs) > 0
  {
    if i < |jobs| - 1 {
      RunningIsCounted(jobs[..|jobs| - 1], i);
    }
  }

  lemma StepKeepsOneRunning(cfg: Config, s: Sys, a: Action)
    requires OneRunning(cfg, s) && Step(cfg, s, a).Some?
    ensures OneRunning(cfg, Step(cfg, s, a).value)
  {
    if a.Work? {
      WorkerFrame(cfg, s, a.job, a.step);
      if a.step.Begin? {
        forall i | 0 <= i < |s.jobs| && Running(s.jobs[i].pc) ensures RunningJobs(s.jobs) > 0 {
          RunningIsCounted(s.jobs, i);
        }
      } else {
        assert Running(s.jobs[a.job].pc);
      }
    } else {
      MainFrame(cfg, s, a);
    }
  }

  /** A worker that has seen its block absent is still right when it adds the metadata. */
  predicate Unseen(s: Sys) {
    forall i :: 0 <= i < |s.jobs| && Holding(s.jobs[i].pc) ==> !Known(s, s.jobs[i].block.cid)
  }

  lemma AddKeepsOther(cfg: Config, s: Sys, b: PinnedBlock, o: Option<BatcherSpec.StoreError>, c: Cid)
    requires BatcherKept(cfg, s) && !Known(s, c) && NormalizeCid(b.cid) != NormalizeCid(c)
    requires s.batcher.err == None ==> NormalizeCid(c) !in CidsOf(s.batcher.accepted)
    ensures !Known(s.(batcher := BatcherSpec.Add(s.batcher, b, o).0), c)
  {
    AddWritesAccepted(s.batcher, b, o);
  }

  lemma AddKeepsUnseen(cfg: Config, s: Sys, i: nat, o: Option<BatcherSpec.StoreError>, j: nat)
    requires BatcherKept(cfg, s) && DistinctKept(cfg, s) && NotAddedYet(cfg, s) && OneRunning(cfg, s) && Unseen(s)
    requires cfg.distinct || cfg.workers <= 1
    requires WorkerStep(cfg, s, i, AddMetadata(o)).Some? && j < |s.jobs| && j != i && Holding(s.jobs[j].pc)
    ensures !Known(WorkerStep(cfg, s, i, AddMetadata(o)).value, s.jobs[j].block.cid)
  {
    if cfg.distinct {
      assert NormalizeCid(s.jobs[i].block.cid) != NormalizeCid(s.jobs[j].block.cid);
      AddKeepsOther(cfg, s, s.jobs[i].block, o, s.jobs[j].block.cid);
    } else {
      OnlyOneRuns(cfg, s, i, j);
    }
  }

  lemma OnlyOneRuns(cfg: Config, s: Sys, i: nat, j: nat)
    requires OneRunning(cfg, s) && cfg.workers <= 1 && i < |s.jobs| && j < |s.jobs| && i != j
    ensures !Running(s.jobs[i].pc) || !Running(s.jobs[j].pc)
  {
  }

  lemma StepKeepsUnseen(cfg: Config, s: Sys, a: Action)
    requires BatcherKept(cfg, s) && DistinctKept(cfg, s) && NotAddedYet(cfg, s) && OneRunning(cfg, s) && Unseen(s)
    requires cfg.distinct || cfg.workers <= 1
    requires Quiet(s) && Step(cfg, s, a).Some?
    ensures Unseen(Step(cfg, s, a).value)
  {
    if a.Work? {
      WorkerFrame(cfg, s, a.job, a.step);
      var u := WorkerStep(cfg, s, a.job, a.step).value;
      if a.step.AddMetadata? {
        forall j | 0 <= j < |s.jobs| && j != a.job && Holding(s.jobs[j].pc) ensures !Known(u, s.jobs[j].block.cid) {
          AddKeepsUnseen(cfg, s, a.job, a.step.outcome, j);
        }
      } else {
        MoveKeepsUnseen(s, u, a.job);
      }
    } else {
      MainKeepsUnseen(cfg, s, a);
    }
  }

  lemma MoveKeepsUnseen(s: Sys, u: Sys, i: nat)
    requires Unseen(s) && WorkerLeaves(s, u, i) && u.batcher == s.batcher
    requires Holding(u.jobs[i].pc) ==> Holding(s.jobs[i].pc) || !Known(s, s.jobs[i].block.cid)
    ensures Unseen(u)
  {
    assert forall c :: Known(s, c) <==> Known(u, c);
  }

  lemma MainKeepsUnseen(cfg: Config, s: Sys, a: Action)
    requires Unseen(s) && Quiet(s) && !a.Work? && Step(cfg, s, a).Some?
    ensures Unseen(Step(cfg, s, a).value)
  {
    MainFrame(cfg, s, a);
    assert !a.FlushAll? ==> forall c :: Known(s, c) <==> Known(Step(cfg, s, a).value, c);
  }

  // ---- a lost batch is always reported ---------------------------------------------------------

  /** A job that has failed to add its block, and cannot be saved by finding it in the tables. */
  predicate Doomed(s: Sys, j: Job) {
    !Through(j.pc) && !j.pc.Queued? && !j.pc.Started? && !Known(s, j.block.cid)
  }

  /** After a failed write some job will report it. */
  ghost predicate LossKept(s: Sys) {
    s.batcher.err.Some? ==>
      s.phase.Failed? || exists i :: 0 <= i < |s.jobs| && Doomed(s, s.jobs[i])
  }

  lemma FailedAddDooms(cfg: Config, s: Sys, i: nat, o: Option<BatcherSpec.StoreError>)
    requires BatcherKept(cfg, s) && Unseen(s) && WorkerStep(cfg, s, i, AddMetadata(o)).Some?
    requires BatcherSpec.Add(s.batcher, s.jobs[i].block, o).1.Some?
    ensures var u := WorkerStep(cfg, s, i, AddMetadata(o)).value; Doomed(u, u.jobs[i])
  {
    AddGrowsWritten(s.batcher, s.jobs[i].block, o);
  }

  lemma DoomStays(cfg: Config, s: Sys, i: nat, w: WorkStep, k: nat)
    requires BatcherKept(cfg, s) && s.batcher.err.Some? && WorkerStep(cfg, s, i, w).Some?
    requires k < |s.jobs| && Doomed(s, s.jobs[k])
    ensures var u := WorkerStep(cfg, s, i, w).value; Doomed(u, u.jobs[k])
  {
  }

  lemma StepKeepsLoss(cfg: Config, s: Sys, a: Action)
    requires BatcherKept(cfg, s) && Unseen(s) && LossKept(s) && Step(cfg, s, a).Some?
    ensures LossKept(Step(cfg, s, a).value)
  {
    var u := Step(cfg, s, a).value;
    if a.Work? {
      WorkerFrame(cfg, s, a.job, a.step);
      if s.batcher.err.Some? && !s.phase.Failed? {
        var k :| 0 <= k < |s.jobs| && Doomed(s, s.jobs[k]);
        DoomStays(cfg, s, a.job, a.step, k);
      } else if a.step.AddMetadata? && s.batcher.err == None {
        AddEffect(s.batcher, s.jobs[a.job].block, a.step.outcome);
        if u.batcher.err.Some? {
          FailedAddDooms(cfg, s, a.job, a.step.outcome);
        }
      }
    } else {
      MainFrame(cfg, s, a);
      if s.batcher.err.Some? && !s.phase.Failed? {
        var k :| 0 <= k < |s.jobs| && Doomed(s, s.jobs[k]);
        assert u.batcher.writes == s.batcher.writes;
        assert u.jobs[k] == s.jobs[k] && Doomed(u, u.jobs[k]);
      }
    }
  }

  // ---- success is honest -----------------------------------------------------------------------

  ghost predicate Kept(cfg: Config, s: Sys) {
    && ErrorsKept(s) && Quiet(s) && BatcherKept(cfg, s) && Covered(s) && DoneKept(cfg, s) && UploadsKept(s)
    && StoredKept(cfg, s) && DistinctKept(cfg, s) && NotAddedYet(cfg, s) && OneRunning(cfg, s)
    && (cfg.distinct || cfg.workers <= 1 ==> Unseen(s) && LossKept(s))
  }

  lemma StepKeeps(cfg: Config, s: Sys, a: Action)
    requires Kept(cfg, s) && Step(cfg, s, a).Some?
    ensures Kept(cfg, Step(cfg, s, a).value)
  {
    StepKeepsQuiet(cfg, s, a);
    StepKeepsBatcher(cfg, s, a);
    StepKeepsCovered(cfg, s, a);
    StepKeepsDone(cfg, s, a);
    StepKeepsUploads(cfg, s, a);
    StepKeepsStored(cfg, s, a);
    if a.Work? {
      WorkerKeepsErrors(cfg, s, a.job, a.step);
      WorkerKeepsDistinct(cfg, s, a.job, a.step);
    } else {
      MainKeepsErrors(cfg, s, a);
      MainKeepsDistinct(cfg, s, a);
    }
    StepKeepsNotAdded(cfg, s, a);
    StepKeepsOneRunning(cfg, s, a);
    if cfg.distinct || cfg.workers <= 1 {
      StepKeepsUnseen(cfg, s, a);
      StepKeepsLoss(cfg, s, a);
    }
  }

  lemma {:induction false} RunsKeep(cfg: Config, pre: set<Cid>, actions: seq<Action>)
    requires Run(cfg, Start(cfg, pre), actions).Some?
    ensures Kept(cfg, Run(cfg, Start(cfg, pre), actions).value)
  {
    if actions != [] {
      RunsKeep(cfg, pre, actions[..|actions| - 1]);
      StepKeeps(cfg, Run(cfg, Start(cfg, pre), actions[..|actions| - 1]).value, actions[|actions| - 1]);
    } else {
      assert BatcherSpec.Blocks([]) == [];
    }
  }

  /** Without a failed write and with an empty buffer every accepted block is in the tables. */
  lemma FlushedIsKnown(s: Sys, c: Cid)
    requires BatcherSpec.Accounted(s.batcher) && s.batcher.err == None && s.batcher.batch == []
    requires NormalizeCid(c) in CidsOf(s.batcher.accepted)
    ensures Known(s, c)
  {
    AllWritten(s.batcher.writes);
    assert s.batcher.accepted == BatcherSpec.Blocks(s.batcher.writes);
  }

  lemma JobIsComplete(cfg: Config, s: Sys, i: nat)
    requires Kept(cfg, s) && Trustworthy(cfg) && s.phase.Succeeded? && !s.outside && i < |s.jobs|
    ensures CompleteFor(s, s.jobs[i].block.cid)
  {
    assert s.jobs[i].pc.Persisted?;
    assert AddedOrOld(cfg, s, s.jobs[i].block.cid);
    if cfg.batchSize > 1 {
      assert s.batcher.err == None;
      if NormalizeCid(s.jobs[i].block.cid) in CidsOf(s.batcher.accepted) {
        FlushedIsKnown(s, s.jobs[i].block.cid);
      }
    }
  }

  /** In every interleaving in which the context does not end before the workers are done, if the call
      succeeds then every block Next returned is stored, done, and in a batch that was written. */
  lemma SuccessIsComplete(cfg: Config, pre: set<Cid>, actions: seq<Action>)
    requires Trustworthy(cfg) && Run(cfg, Start(cfg, pre), actions).Some? && !EndsEarly(actions)
    requires Run(cfg, Start(cfg, pre), actions).value.phase.Succeeded?
    ensures Complete(Run(cfg, Start(cfg, pre), actions).value)
  {
    var s := Run(cfg, Start(cfg, pre), actions).value;
    RunsKeep(cfg, pre, actions);
    LateEndIsSeen(cfg, pre, actions);
    forall k | 0 <= k < |s.returned| ensures CompleteFor(s, s.returned[k].cid) {
      assert s.returned[k] == JobBlocks(s.jobs)[k];
      JobIsComplete(cfg, s, k);
    }
  }

  // ---- in the tables ---------------------------------------------------------------------------

  /** What the writes of the batcher contain is ready in the tables they leave behind. */
  lemma {:induction false} WrittenIsReady(t: Tables, writes: seq<BatcherSpec.Write>)
    requires Consistent(t) && BatcherSpec.FaithfulWrites(t, writes)
    ensures var u := BatcherSpec.TablesAfterWrites(t, writes);
            && Consistent(u) && (forall c :: IsReady(t, c) ==> IsReady(u, c))
            && (forall c :: c in WrittenCids(writes) ==> IsReady(u, c))
  {
    if writes != [] {
      var front, last := writes[..|writes| - 1], writes[|writes| - 1];
      BatcherSpec.FaithfulFront(t, writes);
      WrittenIsReady(t, front);
      if last.ok {
        PinTheorems.BatchPinKeeps(BatcherSpec.TablesAfterWrites(t, front), last.blocks);
      }
    }
  }

  /** The end of the pipeline: if the call starts with the blocks that are ready in t, and each write does to
      the tables what BatchPin does, then after a success every returned block is ready in the tables. */
  lemma SuccessReachesTables(cfg: Config, t: Tables, actions: seq<Action>)
    requires Consistent(t) && Trustworthy(cfg) && !EndsEarly(actions)
    requires Run(cfg, Start(cfg, ReadyCids(t)), actions).Some?
    requires var s := Run(cfg, Start(cfg, ReadyCids(t)), actions).value;
             s.phase.Succeeded? && BatcherSpec.FaithfulWrites(t, s.batcher.writes)
    ensures var s := Run(cfg, Start(cfg, ReadyCids(t)), actions).value;
            forall b :: b in s.returned ==>
                          && IsReady(BatcherSpec.TablesAfterWrites(t, s.batcher.writes), NormalizeCid(b.cid))
                          && b.cid in s.done
  {
    var s := Run(cfg, Start(cfg, ReadyCids(t)), actions).value;
    SuccessIsComplete(cfg, ReadyCids(t), actions);
    OldStaysOld(cfg, ReadyCids(t), actions);
    WrittenIsReady(t, s.batcher.writes);
    forall b | b in s.returned
      ensures IsReady(BatcherSpec.TablesAfterWrites(t, s.batcher.writes), NormalizeCid(b.cid)) && b.cid in s.done
    {
      var k :| 0 <= k < |s.returned| && s.returned[k] == b;
      assert CompleteFor(s, s.returned[k].cid);
    }
  }

  lemma {:induction false} OldStaysOld(cfg: Config, pre: set<Cid>, actions: seq<Action>)
    requires Run(cfg, Start(cfg, pre), actions).Some?
    ensures Run(cfg, Start(cfg, pre), actions).value.preexisting == pre
  {
    if actions != [] {
      var front, a := actions[..|actions| - 1], actions[|actions| - 1];
      OldStaysOld(cfg, pre, front);
      RunsKeep(cfg, pre, front);
      KnownStays(cfg, Run(cfg, Start(cfg, pre), front).value, a);
    }
  }
}
