/** Which blocks the consumer of a file upload gets, and what the streaming store counts meanwhile
    (internal/protocol/streaming_blockstore.go). */
module FileFlow {
  import opened Wrappers
  import opened Cids
  import opened FilePipeline

  function Keys(cs: seq<Cid>): set<Key> {
    set c | c in cs :: Binary(c)
  }

  /** The blocks whose put has started. */
  function PutSoFar(s: Sys, script: seq<Cid>): nat
    requires |s.script| <= |script|
  {
    |script| - |s.script|
  }

  /** The put that is under way and has not been decided yet. */
  function Undecided(p: ProducerPc): seq<Cid> {
    match p
    case EnteredPut(c) => [c]
    case SawOpen(c) => [c]
    case SawOpen2(c) => [c]
    case Admitted(c) => [c]
    case _ => []
  }

  /** The put that was accepted and is being sent. */
  function InFlight(p: ProducerPc): seq<Cid> {
    match p
    case Sending(c) => [c]
    case _ => []
  }

  /** No put has failed. */
  predicate Healthy(p: ProducerPc) {
    !p.Failing? && !p.Returning? && !p.Exited?
  }

  /** The channel is a queue. */
  predicate QueueFlow(s: Sys) {
    s.channel.sent == s.channel.received + s.channel.buffer && |s.channel.buffer| <= s.channel.capacity
  }

  /** What was accepted has been sent, up to the put under way, or the put that failed. */
  predicate SendFlow(s: Sys) {
    && s.channel.sent <= s.books.accepted && |s.books.accepted| <= |s.channel.sent| + 1
    && (Healthy(s.producer) ==> s.books.accepted == s.channel.sent + InFlight(s.producer))
  }

  /** The two counters split the accepted blocks, until Close resets them. */
  predicate CountFlow(s: Sys) {
    s.release < RELEASED ==>
      (&& s.books.processedCount == |s.channel.received| - (if s.next.Received? || s.next.Unlisted? then 1 else 0)
       && s.books.pendingCount + s.books.processedCount + (if s.next.Unlisted? then 1 else 0) == |s.books.accepted|)
  }

  /** The pending map never shrinks before Close clears it, so no block is accepted twice. */
  ghost predicate PendingFlow(s: Sys) {
    && Distinct(s.books.accepted)
    && (s.release < PENDING_CLEARED ==> s.books.pending == Keys(s.books.accepted))
  }

  /** The accepted blocks are the file's blocks without repetition. */
  predicate ScriptFlow(s: Sys, script: seq<Cid>) {
    && |s.script| <= |script| && s.script == script[PutSoFar(s, script)..]
    && (Healthy(s.producer) ==>
          (&& |Undecided(s.producer)| <= PutSoFar(s, script)
           && script[PutSoFar(s, script) - |Undecided(s.producer)|..PutSoFar(s, script)] == Undecided(s.producer)
           && s.books.accepted == Uniq(script[..PutSoFar(s, script) - |Undecided(s.producer)|])))
  }

  /** The producer stops putting only at the end of the file, and only then is the channel closed before
      Release does it. */
  predicate EndFlow(s: Sys, script: seq<Cid>) {
    && (s.producer.AllPut? || s.producer.Completed? || s.producer.SeenNotDone? ==> s.script == [])
    && (s.producer.DoneSet? || s.producer.StreamClosed? ==> s.flags.processingDone)
    && (s.channel.closed && s.release < CHANNEL_CLOSED ==> s.flags.processingDone)
    && (s.flags.processingDone ==> s.books.accepted == Uniq(script) && s.channel.sent == s.books.accepted)
  }

  ghost predicate Flow(s: Sys, script: seq<Cid>) {
    QueueFlow(s) && SendFlow(s) && CountFlow(s) && PendingFlow(s) && ScriptFlow(s, script) && EndFlow(s, script)
  }

  // ---- the consumer ----------------------------------------------------------------------------

  /** What a step of Next leaves alone. */
  ghost predicate NextLeaves(s: Sys, u: Sys) {
    && u.books.accepted == s.books.accepted && u.channel.sent == s.channel.sent && u.script == s.script
    && u.channel.capacity == s.channel.capacity
    && (u.producer == s.producer || (s.producer.NotSpawned? && u.producer.Working?))
    && (u.books.pending == s.books.pending || exists h :: u.books.pending == s.books.pending - {Text(h)})
  }

  lemma NextStepLeaves(s: Sys, a: Action)
    requires Lifecycle(s) && NextStep(s, a).Some?
    ensures NextLeaves(s, NextStep(s, a).value)
  {
  }

  lemma NextKeepsCounts(s: Sys, a: Action)
    requires Lifecycle(s) && QueueFlow(s) && CountFlow(s) && NextStep(s, a).Some?
    ensures QueueFlow(NextStep(s, a).value) && CountFlow(NextStep(s, a).value)
  {
    if a == NextProceeds {
      ProceedKeepsCounts(s);
    }
  }

  lemma ProceedKeepsCounts(s: Sys)
    requires QueueFlow(s) && CountFlow(s)
    ensures QueueFlow(NextProceed(s)) && CountFlow(NextProceed(s))
  {
  }

  lemma NextKeepsFlow(s: Sys, a: Action, script: seq<Cid>)
    requires Lifecycle(s) && Flow(s, script) && NextStep(s, a).Some?
    ensures Flow(NextStep(s, a).value, script)
  {
    NextFrame(s, a);
    NextStepLeaves(s, a);
    NextKeepsCounts(s, a);
  }

  // ---- Release ---------------------------------------------------------------------------------

  /** What Release does to the channel and the books. */
  lemma ReleaseBooks(s: Sys, a: Action)
    requires ReleaseStep(s, a).Some?
    ensures var u := ReleaseStep(s, a).value;
            && u.channel.sent == s.channel.sent && u.channel.received == s.channel.received
            && u.channel.buffer == s.channel.buffer && u.channel.capacity == s.channel.capacity
            && u.books.accepted == s.books.accepted
            && (u.release < PENDING_CLEARED ==> u.books.pending == s.books.pending)
  {
  }

  lemma ReleaseKeepsCounts(s: Sys, a: Action)
    requires CountFlow(s) && ReleaseStep(s, a).Some?
    ensures CountFlow(ReleaseStep(s, a).value) && ReleaseStep(s, a).value.release > s.release
  {
  }

  lemma ReleaseClosesLate(s: Sys, a: Action)
    requires ReleaseStep(s, a).Some?
    ensures var u := ReleaseStep(s, a).value;
            u.release > s.release && (u.channel.closed ==> s.channel.closed || u.release >= CHANNEL_CLOSED)
  {
  }

  lemma SameProducerKeepsEnd(s: Sys, u: Sys, script: seq<Cid>)
    requires EndFlow(s, script) && SameThreads(s, u) && u.release > s.release
    requires u.books.accepted == s.books.accepted && u.channel.sent == s.channel.sent
    requires u.channel.closed ==> s.channel.closed || u.release >= CHANNEL_CLOSED
    ensures EndFlow(u, script)
  {
  }

  lemma ReleaseKeepsFlow(s: Sys, a: Action, script: seq<Cid>)
    requires Flow(s, script) && ReleaseStep(s, a).Some?
    ensures Flow(ReleaseStep(s, a).value, script)
  {
    ReleaseFrame(s, a);
    ReleaseBooks(s, a);
    ReleaseKeepsCounts(s, a);
    ReleaseClosesLate(s, a);
    SameProducerKeepsEnd(s, ReleaseStep(s, a).value, script);
  }

  // ---- the producer ----------------------------------------------------------------------------

  ghost predicate Queues(s: Sys) {
    QueueFlow(s) && SendFlow(s) && CountFlow(s)
  }

  lemma PutKeepsQueues(s: Sys)
    requires Queues(s) && Putting(s.producer)
    ensures Queues(PutProceed(s))
  {
    PutFrame(s);
  }

  lemma FinishKeepsQueues(s: Sys)
    requires Queues(s) && !s.producer.Sending?
    ensures Queues(FinishProceed(s))
  {
  }

  lemma ProducerKeepsQueues(s: Sys, a: Action)
    requires Lifecycle(s) && Orderly(s) && Queues(s) && ProducerStep(s, a).Some?
    ensures Queues(ProducerStep(s, a).value)
  {
    if a == ProducerProceeds {
      if Putting(s.producer) {
        PutKeepsQueues(s);
      } else {
        FinishKeepsQueues(s);
      }
    }
  }

  lemma ProducerKeepsPending(s: Sys, a: Action)
    requires Lifecycle(s) && Orderly(s) && PendingFlow(s) && ProducerStep(s, a).Some?
    ensures PendingFlow(ProducerStep(s, a).value)
  {
  }

  lemma UniqSnoc(script: seq<Cid>, k: nat)
    requires k < |script|
    ensures var before := Uniq(script[..k]);
            Uniq(script[..k + 1]) == if script[k] in before then before else before + [script[k]]
  {
    assert script[..k + 1][..k] == script[..k];
  }

  lemma WorkingKeepsScript(s: Sys, script: seq<Cid>)
    requires ScriptFlow(s, script) && s.producer.Working?
    ensures ScriptFlow(PutProceed(s), script)
  {
    if s.script != [] {
      var k, u := PutSoFar(s, script), PutProceed(s);
      NextOfScript(s, script);
      assert u.producer == EnteredPut(script[k]) && u.books == s.books && PutSoFar(u, script) == k + 1;
    }
  }

  lemma NextOfScript(s: Sys, script: seq<Cid>)
    requires |s.script| <= |script| && s.script == script[PutSoFar(s, script)..] && s.script != []
    ensures var k := PutSoFar(s, script);
            script[k] == s.script[0] && script[k + 1..] == s.script[1..] && script[k..k + 1] == [script[k]]
  {
  }

  /** Nothing is undecided, and the accepted blocks are those put so far. */
  lemma DecidedKeepsScript(s: Sys, u: Sys, script: seq<Cid>)
    requires ScriptFlow(s, script) && u.script == s.script && (u.producer.Working? || u.producer.Sending?)
    requires u.books.accepted == Uniq(script[..PutSoFar(s, script)])
    ensures ScriptFlow(u, script)
  {
    assert script[PutSoFar(s, script)..PutSoFar(s, script)] == [];
  }

  lemma AdmittedIsNext(s: Sys, script: seq<Cid>)
    requires PendingFlow(s) && s.release < PENDING_CLEARED && ScriptFlow(s, script) && s.producer.Admitted?
    ensures var a, c := s.books.accepted, s.producer.cid;
            Uniq(script[..PutSoFar(s, script)]) == if Binary(c) in s.books.pending then a else a + [c]
  {
    var k, c := PutSoFar(s, script), s.producer.cid;
    assert script[k - 1] == script[k - 1..k][0] == c;
    UniqSnoc(script, k - 1);
    assert Binary(c) in Keys(s.books.accepted) <==> c in s.books.accepted;
  }

  lemma AdmittedKeepsScript(s: Sys, script: seq<Cid>)
    requires PendingFlow(s) && s.release < PENDING_CLEARED && ScriptFlow(s, script) && s.producer.Admitted?
    ensures ScriptFlow(ProducerProceed(s), script)
  {
    AdmittedIsNext(s, script);
    DecidedKeepsScript(s, ProducerProceed(s), script);
  }

  lemma ProducerKeepsScript(s: Sys, a: Action, script: seq<Cid>)
    requires Lifecycle(s) && Orderly(s) && PendingFlow(s) && ScriptFlow(s, script) && ProducerStep(s, a).Some?
    ensures ScriptFlow(ProducerStep(s, a).value, script)
  {
    if a == ProducerProceeds && s.producer.Working? {
      WorkingKeepsScript(s, script);
    } else if s.producer.Admitted? {
      AdmittedKeepsScript(s, script);
    } else {
      OthersSameScript(s, a);
    }
  }

  predicate SameScript(s: Sys, u: Sys) {
    && u.script == s.script && u.books == s.books
    && (Healthy(u.producer) ==> Healthy(s.producer) && Undecided(u.producer) == Undecided(s.producer))
  }

  lemma OthersSameScript(s: Sys, a: Action)
    requires ProducerStep(s, a).Some?
    requires !s.producer.Admitted? && !(a == ProducerProceeds && s.producer.Working?)
    ensures SameScript(s, ProducerStep(s, a).value)
  {
  }

  lemma FinishKeepsEnd(s: Sys, script: seq<Cid>)
    requires Orderly(s) && Flow(s, script) && !Putting(s.producer) && Spawned(s)
    ensures EndFlow(FinishProceed(s), script)
  {
    if s.producer == SeenNotDone {
      assert script[..PutSoFar(s, script)] == script;
    }
  }

  lemma ProducerKeepsEnd(s: Sys, a: Action, script: seq<Cid>)
    requires Lifecycle(s) && Orderly(s) && Flow(s, script) && ProducerStep(s, a).Some?
    ensures EndFlow(ProducerStep(s, a).value, script)
  {
    if a == ProducerProceeds {
      if Putting(s.producer) {
        PutFrame(s);
      } else {
        FinishKeepsEnd(s, script);
      }
    }
  }

  lemma StepKeepsFlow(s: Sys, a: Action, script: seq<Cid>)
    requires Lifecycle(s) && Orderly(s) && Flow(s, script) && Step(s, a).Some?
    ensures Flow(Step(s, a).value, script)
  {
    if Step(s, a) == NextStep(s, a) {
      NextKeepsFlow(s, a, script);
    } else if Step(s, a) == ProducerStep(s, a) {
      ProducerKeepsQueues(s, a);
      ProducerKeepsPending(s, a);
      ProducerKeepsScript(s, a, script);
      ProducerKeepsEnd(s, a, script);
    } else if Step(s, a) == ReleaseStep(s, a) {
      ReleaseKeepsFlow(s, a, script);
    }
  }

  lemma {:induction false} RunsKeepFlow(capacity: nat, script: seq<Cid>, actions: seq<Action>)
    requires Run(Start(capacity, script), actions).Some? && ReleasedOutsideWindow(Start(capacity, script), actions)
    ensures Flow(Run(Start(capacity, script), actions).value, script)
  {
    var s0 := Start(capacity, script);
    if actions == [] {
      assert script[..0] == [];
    } else {
      var front, a := actions[..|actions| - 1], actions[|actions| - 1];
      assert forall k :: 0 <= k < |front| ==> front[..k] == actions[..k];
      RunsKeepFlow(capacity, script, front);
      RunsKeepOrder(s0, front);
      StepKeepsFlow(Run(s0, front).value, a, script);
    }
  }

  /** In every run the consumer gets blocks in the order they were accepted, none twice. Pending entries are
      never deleted before Close clears them, because deletions use the other key; the two counters still add
      up to the accepted blocks whenever Next is not between its two updates. */
  lemma ConsumerGetsEachBlockOnce(capacity: nat, script: seq<Cid>, actions: seq<Action>)
    requires Run(Start(capacity, script), actions).Some? && ReleasedOutsideWindow(Start(capacity, script), actions)
    ensures var s := Run(Start(capacity, script), actions).value;
            && s.channel.received <= s.channel.sent <= s.books.accepted && Distinct(s.channel.sent)
            && |s.channel.sent| - |s.channel.received| <= s.channel.capacity
            && (s.release < PENDING_CLEARED ==> s.books.pending == Keys(s.books.accepted))
            && (s.release < RELEASED && !s.next.Unlisted? ==>
                  s.books.pendingCount + s.books.processedCount == |s.books.accepted|)
            && (s.release < RELEASED && !s.next.Unlisted? && !s.next.Received? ==>
                  s.books.processedCount == |s.channel.received|)
  {
    RunsKeepFlow(capacity, script, actions);
  }

  /** When Next sees the end of the stream and Release has not closed it, the consumer has received every
      block of the file exactly once, in the order of their first puts. */
  lemma EndOfStreamIsComplete(capacity: nat, script: seq<Cid>, actions: seq<Action>)
    requires Run(Start(capacity, script), actions).Some? && ReleasedOutsideWindow(Start(capacity, script), actions)
    requires Step(Run(Start(capacity, script), actions).value, SeeEnd).Some?
    requires Run(Start(capacity, script), actions).value.release < CHANNEL_CLOSED
    ensures Run(Start(capacity, script), actions).value.channel.received == Uniq(script)
  {
    RunsKeepFlow(capacity, script, actions);
  }

  // ---- which blocks are marked as processed ----------------------------------------------------

  /** The received blocks that MarkBlockProcessed is through with. */
  function MarkedBlocks(s: Sys): seq<Cid> {
    if (s.next.Received? || s.next.Unlisted?) && s.channel.received != []
    then s.channel.received[..|s.channel.received| - 1] else s.channel.received
  }

  function TextKeys(cs: seq<Cid>): set<Key> {
    set c | c in cs :: Text(MultihashOf(c))
  }

  /** Next marks the block it has just received, and Close forgets the marks. */
  predicate MarkFlow(s: Sys) {
    && (s.next.Received? || s.next.Unlisted? ==>
          s.channel.received != [] && s.next.cid == s.channel.received[|s.channel.received| - 1])
    && (s.release < PROCESSED_CLEARED ==> s.books.processed == TextKeys(MarkedBlocks(s)))
  }

  lemma TextKeysSnoc(cs: seq<Cid>, c: Cid)
    ensures TextKeys(cs + [c]) == TextKeys(cs) + {Text(MultihashOf(c))}
  {
  }

  lemma ProceedKeepsMarks(s: Sys)
    requires MarkFlow(s)
    ensures MarkFlow(NextProceed(s))
  {
    match s.next
    case Received(c) => assert MarkedBlocks(NextProceed(s)) == MarkedBlocks(s);
    case Unlisted(c) =>
      assert s.channel.received == MarkedBlocks(s) + [c];
      TextKeysSnoc(MarkedBlocks(s), c);
    case _ =>
  }

  lemma NextKeepsMarks(s: Sys, a: Action)
    requires MarkFlow(s) && NextStep(s, a).Some?
    ensures MarkFlow(NextStep(s, a).value)
  {
    match a
    case NextProceeds => ProceedKeepsMarks(s);
    case Receive => assert MarkedBlocks(NextStep(s, a).value) == MarkedBlocks(s);
    case _ =>
  }

  lemma ProducerKeepsMarks(s: Sys, a: Action)
    requires MarkFlow(s) && ProducerStep(s, a).Some?
    ensures MarkFlow(ProducerStep(s, a).value)
  {
    ProducerKeepsReceived(s, a);
  }

  lemma ProducerKeepsReceived(s: Sys, a: Action)
    requires ProducerStep(s, a).Some?
    ensures var u := ProducerStep(s, a).value;
            && u.next == s.next && u.channel.received == s.channel.received && u.release == s.release
            && u.books.processed == s.books.processed
  {
  }

  lemma ReleaseKeepsMarks(s: Sys, a: Action)
    requires MarkFlow(s) && ReleaseStep(s, a).Some?
    ensures MarkFlow(ReleaseStep(s, a).value)
  {
    ReleaseFrame(s, a);
    ReleaseBooks(s, a);
    ReleaseKeepsProcessed(s, a);
  }

  lemma ReleaseKeepsProcessed(s: Sys, a: Action)
    requires ReleaseStep(s, a).Some?
    ensures var u := ReleaseStep(s, a).value;
            u.release > s.release && (u.release < PROCESSED_CLEARED ==> u.books.processed == s.books.processed)
  {
  }

  /** In every run, until Close forgets them, exactly the received blocks are marked as processed, by their text
      keys, except for one that Next is still at. */
  lemma {:induction false} MarksAreExact(capacity: nat, script: seq<Cid>, actions: seq<Action>)
    requires Run(Start(capacity, script), actions).Some?
    ensures MarkFlow(Run(Start(capacity, script), actions).value)
  {
    if actions != [] {
      MarksAreExact(capacity, script, actions[..|actions| - 1]);
      var s, a := Run(Start(capacity, script), actions[..|actions| - 1]).value, actions[|actions| - 1];
      if Step(s, a) == NextStep(s, a) {
        NextKeepsMarks(s, a);
      } else if Step(s, a) == ProducerStep(s, a) {
        ProducerKeepsMarks(s, a);
      } else if Step(s, a) == ReleaseStep(s, a) {
        ReleaseKeepsMarks(s, a);
      }
    }
  }

  // ---- Get -------------------------------------------------------------------------------------

  datatype GetOutcome = StoreClosed | FoundPending | WaitsForDone | NotFound

  /** Get asks the pending map, then, for a store with a passthrough, whether the block was processed. */
  function Get(s: Sys, c: Cid, passthrough: bool): GetOutcome {
    if s.flags.storeClosed then StoreClosed
    else if Binary(c) in s.books.pending then FoundPending
    else if passthrough && Binary(c) in s.books.processed then WaitsForDone
    else NotFound
  }

  /** MarkBlockProcessed enters text keys only. */
  ghost predicate ProcessedFlow(s: Sys) {
    forall k :: k in s.books.processed ==> k.Text?
  }

  lemma NextKeepsProcessed(s: Sys, a: Action)
    requires ProcessedFlow(s) && NextStep(s, a).Some?
    ensures ProcessedFlow(NextStep(s, a).value)
  {
  }

  lemma ProducerKeepsProcessed(s: Sys, a: Action)
    requires ProcessedFlow(s) && ProducerStep(s, a).Some?
    ensures ProcessedFlow(ProducerStep(s, a).value)
  {
  }

  lemma {:induction false} RunsKeepProcessed(capacity: nat, script: seq<Cid>, actions: seq<Action>)
    requires Run(Start(capacity, script), actions).Some?
    ensures ProcessedFlow(Run(Start(capacity, script), actions).value)
  {
    if actions != [] {
      RunsKeepProcessed(capacity, script, actions[..|actions| - 1]);
      var s, a := Run(Start(capacity, script), actions[..|actions| - 1]).value, actions[|actions| - 1];
      if Step(s, a) == NextStep(s, a) {
        NextKeepsProcessed(s, a);
      } else if Step(s, a) == ProducerStep(s, a) {
        ProducerKeepsProcessed(s, a);
      }
    }
  }

  /** Because of the two kinds of keys, an open store finds exactly the accepted blocks, as pending ones, even
      after they have been processed; it never gets to the passthrough behind a processed block. */
  lemma GetFindsAccepted(capacity: nat, script: seq<Cid>, actions: seq<Action>, c: Cid, passthrough: bool)
    requires Run(Start(capacity, script), actions).Some? && ReleasedOutsideWindow(Start(capacity, script), actions)
    ensures var s := Run(Start(capacity, script), actions).value;
            Get(s, c, passthrough) ==
            if s.release >= STORE_FLAGGED then StoreClosed else if c in s.books.accepted then FoundPending else NotFound
  {
    RunsKeepOrder(Start(capacity, script), actions);
    RunsKeepFlow(capacity, script, actions);
    RunsKeepProcessed(capacity, script, actions);
    var s := Run(Start(capacity, script), actions).value;
    assert Binary(c) in Keys(s.books.accepted) <==> c in s.books.accepted;
  }
}
