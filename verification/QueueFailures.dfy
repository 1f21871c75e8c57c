/** Every configuration outside QueueSafety.Trustworthy has a run that succeeds and loses a block, and so has
    every configuration if the context ends early. */
module QueueFailures {
  import opened Wrappers
  import opened Cids
  import opened ContentTables
  import BatcherSpec
  import opened BlockQueue
  import opened QueueSafety

  /** Success is honest from every database, in every interleaving in which the context does not end before
      StopWait returns. */
  ghost predicate Guaranteed(cfg: Config) {
    forall pre, actions :: Run(cfg, Start(cfg, pre), actions).Some? && !EndsEarly(actions) ==>
                             Honest(Run(cfg, Start(cfg, pre), actions).value)
  }

  predicate Honest(s: Sys) {
    s.phase.Succeeded? ==> Complete(s)
  }

  /** Some run from an empty database, in which the context does not end from outside, leads to s. */
  ghost predicate Reaches(cfg: Config, s: Sys) {
    exists actions :: Run(cfg, Start(cfg, {}), actions) == Some(s) && ContextEnds !in actions
  }

  lemma ReachesStart(cfg: Config)
    ensures Reaches(cfg, Start(cfg, {}))
  {
    assert Run(cfg, Start(cfg, {}), []) == Some(Start(cfg, {}));
  }

  lemma ReachesStep(cfg: Config, s: Sys, a: Action)
    requires Reaches(cfg, s) && Step(cfg, s, a).Some? && a != ContextEnds
    ensures Reaches(cfg, Step(cfg, s, a).value)
  {
    var actions :| Run(cfg, Start(cfg, {}), actions) == Some(s) && ContextEnds !in actions;
    assert (actions + [a])[..|actions|] == actions;
    assert Run(cfg, Start(cfg, {}), actions + [a]) == Step(cfg, s, a);
  }

  lemma LossRefutes(cfg: Config, s: Sys)
    requires Reaches(cfg, s) && s.phase.Succeeded? && !Complete(s)
    ensures !Guaranteed(cfg)
  {
    var actions :| Run(cfg, Start(cfg, {}), actions) == Some(s) && ContextEnds !in actions;
    assert !EndsEarly(actions);
  }

  /** The n-th of a family of blocks with different CIDs. */
  function Blk(n: nat): PinnedBlock {
    PinnedBlock(V1(0, n), [], 1, None)
  }

  // ---- a deadline drops blocks silently --------------------------------------------------------

  /** Whatever the configuration: a context that ends between Next and the submission of its block. */
  function Deadline(): seq<Action> {
    [NextReturns(Blk(0)), ContextEnds, Submit, StopWait, FlushAll(None), CheckErrors]
  }

  lemma TakesStep(cfg: Config, actions: seq<Action>, k: nat, s: Sys, u: Sys)
    requires k < |actions| && Run(cfg, Start(cfg, {}), actions[..k]) == Some(s) && Step(cfg, s, actions[k]) == Some(u)
    ensures Run(cfg, Start(cfg, {}), actions[..k + 1]) == Some(u)
  {
    assert actions[..k + 1][..k] == actions[..k];
  }

  /** The queue is cancelled and the block dropped. */
  function Dropping(cfg: Config): Sys {
    Start(cfg, {}).(returned := [Blk(0)], phase := Waiting, cancelled := true, outside := true)
  }

  lemma DeadlineDrops(cfg: Config)
    ensures Run(cfg, Start(cfg, {}), Deadline()[..3]) == Some(Dropping(cfg))
  {
    var d, s0 := Deadline(), Start(cfg, {});
    assert d[..0] == [];
    var s1 := s0.(returned := s0.returned + [Blk(0)], phase := Submitting(Blk(0)));
    TakesStep(cfg, d, 0, s0, s1);
    var s2 := s1.(cancelled := true, outside := true);
    TakesStep(cfg, d, 1, s1, s2);
    TakesStep(cfg, d, 2, s2, s2.(phase := Waiting));
    assert s2.(phase := Waiting) == Dropping(cfg);
  }

  lemma DeadlineSucceeds(cfg: Config)
    ensures Run(cfg, Start(cfg, {}), Deadline()) == Some(Dropping(cfg).(phase := Succeeded))
  {
    var d, s := Deadline(), Dropping(cfg);
    DeadlineDrops(cfg);
    TakesStep(cfg, d, 3, s, s.(phase := Flushing));
    TakesStep(cfg, d, 4, s.(phase := Flushing), s.(phase := Checking));
    TakesStep(cfg, d, 5, s.(phase := Checking), s.(phase := Succeeded));
    assert d[..6] == d;
  }

  /** No configuration is honest in every run: a timeout can lose a block without an error. */
  lemma DeadlineLoses(cfg: Config)
    ensures EndsEarly(Deadline()) && Run(cfg, Start(cfg, {}), Deadline()).Some?
    ensures !Honest(Run(cfg, Start(cfg, {}), Deadline()).value)
  {
    assert Deadline()[1] == ContextEnds && StopWait !in Deadline()[..1];
    DeadlineSucceeds(cfg);
    var s := Dropping(cfg).(phase := Succeeded);
    assert !CompleteFor(s, s.returned[0].cid);
  }

  /** From here the call succeeds without looking at the k-th block again. */
  lemma EndLoses(cfg: Config, s: Sys, k: nat)
    requires Reaches(cfg, s) && s.phase.Waiting? && !s.errors && !s.batcher.closed
    requires s.batcher.batch == [] || !cfg.flusher
    requires forall i :: 0 <= i < |s.jobs| ==> Ended(s.jobs[i].pc)
    requires k < |s.returned| && !Known(s, s.returned[k].cid)
    ensures !Guaranteed(cfg)
  {
    StopsWaiting(cfg, s);
    FlushesNothing(cfg, s.(phase := Flushing));
    SucceedsAfter(cfg, s.(phase := Checking));
    var u := s.(phase := Succeeded);
    assert !CompleteFor(u, u.returned[k].cid);
    LossRefutes(cfg, u);
  }

  lemma StopsWaiting(cfg: Config, s: Sys)
    requires Reaches(cfg, s) && s.phase.Waiting? && forall i :: 0 <= i < |s.jobs| ==> Ended(s.jobs[i].pc)
    ensures Reaches(cfg, s.(phase := Flushing))
  {
    ReachesStep(cfg, s, StopWait);
  }

  lemma SucceedsAfter(cfg: Config, s: Sys)
    requires Reaches(cfg, s) && s.phase.Checking? && !s.errors
    ensures Reaches(cfg, s.(phase := Succeeded))
  {
    ReachesStep(cfg, s, CheckErrors);
  }

  lemma FlushesNothing(cfg: Config, s: Sys)
    requires Reaches(cfg, s) && s.phase.Flushing? && (s.batcher.batch == [] || !cfg.flusher) && !s.batcher.closed
    ensures Reaches(cfg, s.(phase := Checking))
  {
    ReachesStep(cfg, s, FlushAll(None));
    assert Step(cfg, s, FlushAll(None)).value == s.(phase := Checking);
  }

  // ---- one block goes through ------------------------------------------------------------------

  /** The reader waits for the next block, nothing has gone wrong, and one more worker is free. */
  predicate Calm(cfg: Config, s: Sys) {
    && s.phase.Reading? && !s.cancelled && !s.errors && !s.once && s.batcher.err == None && !s.batcher.closed
    && RunningJobs(s.jobs) < cfg.workers
  }

  /** The next block is read and queued. */
  function Queue(cfg: Config, s: Sys, b: PinnedBlock): Sys {
    s.(returned := s.returned + [b], jobs := s.jobs + [Job(b, Queued)],
       done := if cfg.streaming then s.done else s.done + {b.cid})
  }

  lemma QueueReaches(cfg: Config, s: Sys, b: PinnedBlock)
    requires Reaches(cfg, s) && Calm(cfg, s) && (cfg.distinct ==> NormalizeCid(b.cid) !in CidsOf(s.returned))
    ensures Reaches(cfg, Queue(cfg, s, b))
  {
    ReachesStep(cfg, s, NextReturns(b));
    var s1 := s.(returned := s.returned + [b], phase := Submitting(b));
    ReachesStep(cfg, s1, Submit);
    if !cfg.streaming {
      var s2 := s1.(jobs := s.jobs + [Job(b, Queued)], phase := MarkingDone(b.cid));
      ReachesStep(cfg, s2, MarkDone);
      assert Step(cfg, s2, MarkDone).value == Queue(cfg, s, b);
    } else {
      assert Step(cfg, s1, Submit).value == Queue(cfg, s, b);
    }
  }

  /** The i-th job has come as far as pc. */
  function At(s: Sys, i: nat, pc: JobPc): Sys
    requires i < |s.jobs|
  {
    s.(jobs := s.jobs[i := s.jobs[i].(pc := pc)])
  }

  /** A step that only moves the job on. */
  lemma Moves(cfg: Config, s: Sys, i: nat, from: JobPc, w: WorkStep, to: JobPc)
    requires i < |s.jobs| && Reaches(cfg, At(s, i, from))
    requires w.Begin? ==> RunningJobs(At(s, i, from).jobs) < cfg.workers
    requires JobNext(At(s, i, from), Job(s.jobs[i].block, from), w) == Some(to)
    requires JobEffect(cfg, At(s, i, from), Job(s.jobs[i].block, from), w) == At(s, i, from)
    ensures Reaches(cfg, At(s, i, to))
  {
    var t := At(s, i, from);
    ReachesStep(cfg, t, Work(i, w));
    assert s.jobs[i := t.jobs[i]][i := t.jobs[i].(pc := to)] == s.jobs[i := s.jobs[i].(pc := to)];
    assert WorkerStep(cfg, t, i, w).value == At(s, i, to);
  }

  /** The upload of the object. */
  lemma Uploads(cfg: Config, s: Sys, i: nat)
    requires i < |s.jobs| && Reaches(cfg, At(s, i, Absent(1)))
    ensures Reaches(cfg, At(s.(stored := s.stored + {NormalizeCid(s.jobs[i].block.cid)}), i, Uploaded(1)))
  {
    var t := At(s, i, Absent(1));
    ReachesStep(cfg, t, Work(i, Upload(true)));
    assert s.jobs[i := t.jobs[i]][i := t.jobs[i].(pc := Uploaded(1))] == s.jobs[i := s.jobs[i].(pc := Uploaded(1))];
    assert WorkerStep(cfg, t, i, Upload(true)).value
        == At(s.(stored := s.stored + {NormalizeCid(s.jobs[i].block.cid)}), i, Uploaded(1));
  }

  /** A queued job whose block is new gets to the point where it adds the metadata. */
  lemma UploadReaches(cfg: Config, s: Sys, i: nat)
    requires Reaches(cfg, s) && i < |s.jobs| && s.jobs[i].pc.Queued? && !s.cancelled
    requires RunningJobs(s.jobs) < cfg.workers
    requires !Known(s, s.jobs[i].block.cid)
    ensures Reaches(cfg, At(s.(stored := s.stored + {NormalizeCid(s.jobs[i].block.cid)}), i, Uploaded(1)))
  {
    assert s.jobs[i := s.jobs[i].(pc := Queued)] == s.jobs;
    assert At(s, i, Queued) == s;
    Moves(cfg, s, i, Queued, Begin, Started);
    Moves(cfg, s, i, Started, FirstTry, Attempt(1));
    Moves(cfg, s, i, Attempt(1), Look, Absent(1));
    Uploads(cfg, s, i);
  }

  /** The job adds its metadata, and the batcher takes it. */
  lemma Adds(cfg: Config, s: Sys, i: nat)
    requires i < |s.jobs| && Reaches(cfg, At(s, i, Uploaded(1)))
    requires BatcherSpec.Add(s.batcher, s.jobs[i].block, None).1 == None
    ensures Reaches(cfg, At(s.(batcher := BatcherSpec.Add(s.batcher, s.jobs[i].block, None).0), i, Stored))
  {
    var t := At(s, i, Uploaded(1));
    ReachesStep(cfg, t, Work(i, AddMetadata(None)));
    assert s.jobs[i := t.jobs[i]][i := t.jobs[i].(pc := Stored)] == s.jobs[i := s.jobs[i].(pc := Stored)];
    assert WorkerStep(cfg, t, i, AddMetadata(None)).value
        == At(s.(batcher := BatcherSpec.Add(s.batcher, s.jobs[i].block, None).0), i, Stored);
  }

  lemma Persists(cfg: Config, s: Sys, i: nat)
    requires i < |s.jobs| && Reaches(cfg, At(s, i, Stored)) && (!cfg.streaming ==> s.jobs[i].block.cid in s.done)
    ensures Reaches(cfg, At(s.(done := s.done + {s.jobs[i].block.cid}), i, Persisted))
  {
    var t := At(s, i, Stored);
    ReachesStep(cfg, t, Work(i, Persist));
    assert s.jobs[i := t.jobs[i]][i := t.jobs[i].(pc := Persisted)] == s.jobs[i := s.jobs[i].(pc := Persisted)];
    assert !cfg.streaming ==> s.done + {s.jobs[i].block.cid} == s.done;
    assert WorkerStep(cfg, t, i, Persist).value == At(s.(done := s.done + {s.jobs[i].block.cid}), i, Persisted);
  }

  /** The state after a new block has been read and stored, and its metadata added. */
  function Feed(s: Sys, b: PinnedBlock): Sys {
    s.(returned := s.returned + [b], jobs := s.jobs + [Job(b, Persisted)], done := s.done + {b.cid},
       stored := s.stored + {NormalizeCid(b.cid)}, batcher := BatcherSpec.Add(s.batcher, b, None).0)
  }

  lemma FeedReaches(cfg: Config, s: Sys, b: PinnedBlock)
    requires Reaches(cfg, s) && Calm(cfg, s) && (cfg.distinct ==> NormalizeCid(b.cid) !in CidsOf(s.returned))
    requires !Known(s, b.cid)
    ensures Reaches(cfg, Feed(s, b)) && Calm(cfg, Feed(s, b))
  {
    var q, i := Queue(cfg, s, b), |s.jobs|;
    QueueReaches(cfg, s, b);
    assert q.jobs[..i] == s.jobs;
    UploadReaches(cfg, q, i);
    var u := q.(stored := q.stored + {NormalizeCid(b.cid)});
    Adds(cfg, u, i);
    var v := u.(batcher := BatcherSpec.Add(u.batcher, b, None).0);
    Persists(cfg, v, i);
    var w := Feed(s, b);
    assert v.jobs[i := Job(b, Persisted)] == w.jobs;
    assert q.done + {b.cid} == s.done + {b.cid};
    assert At(v.(done := v.done + {b.cid}), i, Persisted) == w;
    assert w.jobs[..i] == s.jobs;
  }

  // ---- without a flusher the last batch stays behind -------------------------------------------

  lemma NoFlusherLoses(cfg: Config)
    requires !cfg.flusher && cfg.batchSize > 1 && cfg.workers >= 1
    ensures !Guaranteed(cfg)
  {
    var s0 := Start(cfg, {});
    ReachesStart(cfg);
    FeedReaches(cfg, s0, Blk(0));
    var s1 := Feed(s0, Blk(0));
    ReachesStep(cfg, s1, NextEnds);
    EndLoses(cfg, s1.(phase := Waiting), 0);
  }

  // ---- a retry can hide a lost batch -----------------------------------------------------------

  /** One worker holds the first block, which it has found absent; every other job is through; the block n and
      those after it are new, and no block in the buffer is in the tables yet. */
  predicate Held(cfg: Config, s: Sys, n: nat) {
    && Calm(cfg, s) && s.batcher.batchSize == cfg.batchSize && |s.batcher.batch| < cfg.batchSize
    && |s.jobs| > 0 && s.jobs[0] == Job(Blk(0), Uploaded(1))
    && (forall i :: 1 <= i < |s.jobs| ==> s.jobs[i].pc.Persisted?)
    && (cfg.streaming || Blk(0).cid in s.done)
    && (forall x :: x in s.batcher.batch ==> x in s.returned && Before(x.cid, n) && !Known(s, x.cid))
    && s.preexisting == {} && (forall c :: c in WrittenCids(s.batcher.writes) ==> Before(c, n))
  }

  predicate Before(c: Cid, n: nat) {
    c.V1? && c.codec == 0 && c.hash < n
  }

  lemma FeedHolds(cfg: Config, s: Sys, n: nat)
    requires Held(cfg, s, n) && Calm(cfg, Feed(s, Blk(n))) && n > 0
    ensures var t := Feed(s, Blk(n));
            && Held(cfg, t, n + 1)
            && |t.batcher.batch| == (if |s.batcher.batch| + 1 == cfg.batchSize then 0 else |s.batcher.batch| + 1)
            && (Known(s, Blk(0).cid) ==> Known(t, Blk(0).cid))
            && (Blk(0) in s.batcher.batch ==>
                  if |s.batcher.batch| + 1 == cfg.batchSize then Known(t, Blk(0).cid) else Blk(0) in t.batcher.batch)
  {
    var t := Feed(s, Blk(n));
    if |s.batcher.batch| + 1 == cfg.batchSize {
      WrittenAppend(s.batcher.writes, BatcherSpec.Write(s.batcher.batch + [Blk(n)], true));
      AcceptGrows(s.batcher.batch, Blk(n));
    } else {
      assert t.batcher.writes == s.batcher.writes;
    }
  }

  /** The first block is in the tables while its first worker still holds it. */
  ghost predicate WrittenAt(cfg: Config, s: Sys, n: nat) {
    Reaches(cfg, s) && Held(cfg, s, n) && Known(s, Blk(0).cid)
  }

  /** Blocks are read until the buffer has been written, with the first block in it. */
  lemma {:induction false} FillAndWrite(cfg: Config, s: Sys, n: nat)
    requires !cfg.distinct && n > 0 && Reaches(cfg, s) && Held(cfg, s, n) && Blk(0) in s.batcher.batch
    ensures exists t, m: nat :: m > 0 && WrittenAt(cfg, t, m) && t.batcher.batch == []
    decreases cfg.batchSize - |s.batcher.batch|
  {
    var t := Feed(s, Blk(n));
    FeedReaches(cfg, s, Blk(n));
    FeedHolds(cfg, s, n);
    if t.batcher.batch != [] {
      FillAndWrite(cfg, t, n + 1);
    } else {
      assert WrittenAt(cfg, t, n + 1);
    }
  }

  /** Blocks are read until one more fills the buffer. */
  lemma {:induction false} FillAlmost(cfg: Config, s: Sys, n: nat)
    requires !cfg.distinct && cfg.batchSize > 1 && n > 0 && Reaches(cfg, s) && Held(cfg, s, n) && Known(s, Blk(0).cid)
    ensures exists t, m: nat :: WrittenAt(cfg, t, m) && |t.batcher.batch| == cfg.batchSize - 1
    decreases cfg.batchSize - |s.batcher.batch|
  {
    if |s.batcher.batch| < cfg.batchSize - 1 {
      FeedReaches(cfg, s, Blk(n));
      FeedHolds(cfg, s, n);
      FillAlmost(cfg, Feed(s, Blk(n)), n + 1);
    } else {
      assert WrittenAt(cfg, s, n);
    }
  }

  /** Two workers have found the first block absent, and one of them has added it. */
  lemma StartHeld(cfg: Config) returns (s: Sys)
    requires !cfg.distinct && cfg.batchSize > 1 && cfg.workers > 1
    ensures Reaches(cfg, s) && Held(cfg, s, 1) && Blk(0) in s.batcher.batch
  {
    var s0 := Start(cfg, {});
    ReachesStart(cfg);
    QueueReaches(cfg, s0, Blk(0));
    var q := Queue(cfg, s0, Blk(0));
    UploadReaches(cfg, q, 0);
    var u := At(q.(stored := q.stored + {NormalizeCid(Blk(0).cid)}), 0, Uploaded(1));
    assert u.jobs == [Job(Blk(0), Uploaded(1))] && u.jobs[..0] == [];
    FeedReaches(cfg, u, Blk(0));
    s := Feed(u, Blk(0));
    assert s.batcher.batch == [Blk(0)];
  }

  lemma LastAddFails(cfg: Config, s: Sys, n: nat, o: Option<BatcherSpec.StoreError>)
    requires Reaches(cfg, s) && Held(cfg, s, n) && |s.batcher.batch| == cfg.batchSize - 1 && o.Some?
    ensures var u := s.(batcher := BatcherSpec.Add(s.batcher, Blk(0), o).0);
            && Reaches(cfg, At(u, 0, AttemptFailed(1))) && u.batcher.batch == [] && !u.batcher.closed
            && WrittenCids(u.batcher.writes) == WrittenCids(s.batcher.writes)
  {
    var u := s.(batcher := BatcherSpec.Add(s.batcher, Blk(0), o).0);
    ReachesStep(cfg, s, Work(0, AddMetadata(o)));
    WrittenAppend(s.batcher.writes, BatcherSpec.Write(s.batcher.batch + [Blk(0)], false));
    assert WorkerStep(cfg, s, 0, AddMetadata(o)).value == At(u, 0, AttemptFailed(1));
  }

  /** The retry finds the block in the tables. */
  lemma RetryFindsBlock(cfg: Config, s: Sys)
    requires |s.jobs| > 0 && s.jobs[0].block == Blk(0) && Reaches(cfg, At(s, 0, AttemptFailed(1)))
    requires Known(s, Blk(0).cid) && (cfg.streaming || Blk(0).cid in s.done)
    ensures Reaches(cfg, At(s.(done := s.done + {Blk(0).cid}), 0, Persisted))
  {
    Moves(cfg, s, 0, AttemptFailed(1), Retry, Attempt(2));
    assert Known(At(s, 0, Attempt(2)), Blk(0).cid);
    Moves(cfg, s, 0, Attempt(2), Look, Stored);
    Persists(cfg, s, 0);
  }

  /** The first worker's batch fails; its retry finds the block in the tables, so nobody reports the batch. */
  lemma RetryHidesLoss(cfg: Config, s: Sys, n: nat)
    requires Reaches(cfg, s) && Held(cfg, s, n) && Known(s, Blk(0).cid) && |s.batcher.batch| == cfg.batchSize - 1 > 0
    ensures !Guaranteed(cfg)
  {
    var lost := s.batcher.batch[0];
    var o := Some(BatcherSpec.StoreError(0));
    var u := s.(batcher := BatcherSpec.Add(s.batcher, Blk(0), o).0);
    LastAddFails(cfg, s, n, o);
    RetryFindsBlock(cfg, u);
    var v := At(u.(done := u.done + {Blk(0).cid}), 0, Persisted);
    assert lost in s.batcher.batch && !Known(s, lost.cid);
    var k :| 0 <= k < |s.returned| && s.returned[k] == lost;
    LossIsSilent(cfg, v, k);
  }

  lemma LossIsSilent(cfg: Config, s: Sys, k: nat)
    requires Reaches(cfg, s) && s.phase.Reading? && !s.errors && s.batcher.batch == [] && !s.batcher.closed
    requires forall i :: 0 <= i < |s.jobs| ==> Ended(s.jobs[i].pc)
    requires k < |s.returned| && !Known(s, s.returned[k].cid)
    ensures !Guaranteed(cfg)
  {
    ReachesStep(cfg, s, NextEnds);
    EndLoses(cfg, s.(phase := Waiting), k);
  }

  lemma DuplicateLoses(cfg: Config)
    requires !cfg.distinct && cfg.batchSize > 1 && cfg.workers > 1
    ensures !Guaranteed(cfg)
  {
    var s0 := StartHeld(cfg);
    FillAndWrite(cfg, s0, 1);
    var s1, n1: nat :| n1 > 0 && WrittenAt(cfg, s1, n1) && s1.batcher.batch == [];
    FillAlmost(cfg, s1, n1);
    var s2, n2: nat :| WrittenAt(cfg, s2, n2) && |s2.batcher.batch| == cfg.batchSize - 1;
    RetryHidesLoss(cfg, s2, n2);
  }

  /** Exactly when success can be trusted, as long as the context does not end before the workers are done. */
  lemma GuaranteedIff(cfg: Config)
    requires cfg.workers >= 1
    ensures Guaranteed(cfg) <==> Trustworthy(cfg)
  {
    if Trustworthy(cfg) {
      forall pre, actions | Run(cfg, Start(cfg, pre), actions).Some? && !EndsEarly(actions)
        ensures Honest(Run(cfg, Start(cfg, pre), actions).value)
      {
        if Run(cfg, Start(cfg, pre), actions).value.phase.Succeeded? {
          SuccessIsComplete(cfg, pre, actions);
        }
      }
    } else if !cfg.flusher {
      NoFlusherLoses(cfg);
    } else {
      DuplicateLoses(cfg);
    }
  }
}
