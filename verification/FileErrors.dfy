/** Failures and cancellation of a file upload (internal/protocol/block_processor_file.go,
    internal/protocol/streaming_blockstore.go): no error is lost, nothing is given up without a reason, and nothing
    is accepted or delivered afterwards. */
module FileErrors {
  import opened Wrappers
  import opened Cids
  import opened FilePipeline
  import FileFlow
  import FileShutdown

  // ---- errors are conserved --------------------------------------------------------------------

  /** A Next that sees an error, or the end of the stream, takes an error off the channel if there is one. */
  predicate TakesError(s: Sys, a: Action) {
    s.flags.errors > 0 && (a == SeeError || (a == NextProceeds && s.next.StreamEnded?))
  }

  /** The producer has failed and puts its error on the channel. */
  predicate ReportsError(s: Sys, a: Action) {
    a == ProducerProceeds && s.producer.Failing? && !s.flags.errorsClosed
  }

  function Taken(s: Sys, actions: seq<Action>): nat {
    if actions == [] then 0
    else
      var front := actions[..|actions| - 1];
      Taken(s, front) +
      if Run(s, front).Some? && TakesError(Run(s, front).value, actions[|actions| - 1]) then 1 else 0
  }

  function Reported(s: Sys, actions: seq<Action>): nat {
    if actions == [] then 0
    else
      var front := actions[..|actions| - 1];
      Reported(s, front) +
      if Run(s, front).Some? && ReportsError(Run(s, front).value, actions[|actions| - 1]) then 1 else 0
  }

  /** A read or a put has failed. */
  predicate HasFailed(actions: seq<Action>) {
    ReadFails in actions || StoreGone in actions || ContextGone in actions
  }

  /** The errors reported so far are on the channel or were taken; the producer fails once at most, and after a
      failure it is about to report it, has reported it, or has found the channel closed. */
  predicate ErrorsAccounted(s: Sys, taken: nat, reported: nat, failed: bool) {
    && s.flags.errors + taken == reported <= 1
    && (reported == 1 ==> s.producer.Returning? || s.producer.Exited?)
    && (failed ==> s.producer.Failing? || reported == 1 || s.errorOnClosed)
    && (s.errorOnClosed ==> s.producer.Exited?)
    && (s.sendOnClosed ==> s.producer.Exited?)
  }

  lemma NextAccounts(s: Sys, a: Action, taken: nat, reported: nat, failed: bool)
    requires Lifecycle(s) && ErrorsAccounted(s, taken, reported, failed) && NextStep(s, a).Some?
    ensures ErrorsAccounted(NextStep(s, a).value, taken + (if TakesError(s, a) then 1 else 0), reported, failed)
  {
    NextFrame(s, a);
  }

  lemma ProducerAccounts(s: Sys, a: Action, taken: nat, reported: nat, failed: bool)
    requires ErrorsAccounted(s, taken, reported, failed) && ProducerStep(s, a).Some?
    ensures ErrorsAccounted(ProducerStep(s, a).value, taken, reported + (if ReportsError(s, a) then 1 else 0),
                            failed || a == ReadFails || a == StoreGone || a == ContextGone)
  {
  }

  lemma ReleaseAccounts(s: Sys, a: Action, taken: nat, reported: nat, failed: bool)
    requires ErrorsAccounted(s, taken, reported, failed) && ReleaseStep(s, a).Some?
    ensures ErrorsAccounted(ReleaseStep(s, a).value, taken, reported, failed)
  {
    ReleaseFrame(s, a);
    FlagsStay(s, a);
  }

  lemma StepAccounts(s: Sys, a: Action, taken: nat, reported: nat, failed: bool)
    requires Lifecycle(s) && ErrorsAccounted(s, taken, reported, failed) && Step(s, a).Some?
    ensures ErrorsAccounted(Step(s, a).value, taken + (if TakesError(s, a) then 1 else 0),
                            reported + (if ReportsError(s, a) then 1 else 0), failed || HasFailed([a]))
  {
    match a
    case ParentCancels =>
    case BeginRelease => ReleaseAccounts(s, a, taken, reported, failed);
    case ReleaseProceeds => ReleaseAccounts(s, a, taken, reported, failed);
    case ProducerProceeds => ProducerAccounts(s, a, taken, reported, failed);
    case Send => ProducerAccounts(s, a, taken, reported, failed);
    case StoreGone => ProducerAccounts(s, a, taken, reported, failed);
    case ContextGone => ProducerAccounts(s, a, taken, reported, failed);
    case ReadFails => ProducerAccounts(s, a, taken, reported, failed);
    case _ => NextAccounts(s, a, taken, reported, failed);
  }

  lemma {:induction false} RunsKeepLifecycle(s: Sys, actions: seq<Action>)
    requires Lifecycle(s) && Run(s, actions).Some?
    ensures Lifecycle(Run(s, actions).value)
  {
    if actions != [] {
      RunsKeepLifecycle(s, actions[..|actions| - 1]);
      StepKeepsLifecycle(Run(s, actions[..|actions| - 1]).value, actions[|actions| - 1]);
    }
  }

  /** In every run, window and Release included, no error is lost: each reported one is still on the channel or was
      taken by a Next, and a failure is reported unless Release has closed the channel before. */
  lemma {:induction false} ErrorsAreConserved(capacity: nat, script: seq<Cid>, actions: seq<Action>)
    requires Run(Start(capacity, script), actions).Some?
    ensures var s0 := Start(capacity, script);
            ErrorsAccounted(Run(s0, actions).value, Taken(s0, actions), Reported(s0, actions), HasFailed(actions))
  {
    if actions != [] {
      var front, a := actions[..|actions| - 1], actions[|actions| - 1];
      assert forall x :: x in actions <==> x in front || x == a;
      ErrorsAreConserved(capacity, script, front);
      RunsKeepLifecycle(Start(capacity, script), front);
      var s0 := Start(capacity, script);
      StepAccounts(Run(s0, front).value, a, Taken(s0, front), Reported(s0, front), HasFailed(front));
    }
  }

  // ---- nothing is given up without a reason ----------------------------------------------------

  /** The caller's context has ended, or Release has been called. */
  predicate Ended(actions: seq<Action>) {
    ParentCancels in actions || BeginRelease in actions
  }

  /** Next has given up, or a put was abandoned. */
  predicate GaveUp(actions: seq<Action>) {
    SeeCancel in actions || ContextGone in actions || StoreGone in actions
  }

  /** Without cancellation and Release no Next gives up and no put is abandoned. */
  lemma {:induction false} NothingIsGivenUp(capacity: nat, script: seq<Cid>, actions: seq<Action>)
    requires Run(Start(capacity, script), actions).Some?
    ensures var f := Run(Start(capacity, script), actions).value.flags;
            && (f.cancelled || f.storeCancelled ==> Ended(actions)) && (GaveUp(actions) ==> Ended(actions))
            && (ParentCancels in actions ==> f.cancelled) && (f.closed <==> BeginRelease in actions)
  {
    if actions != [] {
      var front, a := actions[..|actions| - 1], actions[|actions| - 1];
      assert forall x :: x in actions <==> x in front || x == a;
      NothingIsGivenUp(capacity, script, front);
      RunsKeepLifecycle(Start(capacity, script), front);
      StepNeedsReason(Run(Start(capacity, script), front).value, a);
    }
  }

  /** The step has a reason in s for what it gives up and for the flags it sets. */
  predicate HasReason(f: Flags, g: Flags, a: Action) {
    && (g.cancelled ==> f.cancelled || a == ParentCancels || f.closed)
    && (g.closed <==> f.closed || a == BeginRelease) && (g.storeCancelled ==> f.storeCancelled || f.closed)
    && (a == SeeCancel || a == ContextGone ==> f.cancelled) && (a == StoreGone ==> f.storeCancelled)
    && (f.cancelled || a == ParentCancels ==> g.cancelled)
  }

  lemma StepNeedsReason(s: Sys, a: Action)
    requires Lifecycle(s) && Step(s, a).Some?
    ensures HasReason(s.flags, Step(s, a).value.flags, a)
  {
    if Step(s, a) == NextStep(s, a) {
      NextFrame(s, a);
    } else if Step(s, a) == ProducerStep(s, a) {
      ProducerNeedsReason(s, a);
    } else if Step(s, a) == ReleaseStep(s, a) {
      ReleaseKeepsLifecycle(s, a);
      FlagsStay(s, a);
      FileFlow.ReleaseClosesLate(s, a);
    }
  }

  lemma ProducerNeedsReason(s: Sys, a: Action)
    requires ProducerStep(s, a).Some?
    ensures HasReason(s.flags, ProducerStep(s, a).value.flags, a)
  {
    if a == ProducerProceeds {
      if Putting(s.producer) {
        PutFrame(s);
      } else {
        FinishFlagsFrame(s.producer, s.flags);
      }
    }
  }

  /** A Next returns an error off the channel only if one was reported, or Release has begun to close the
      channel. */
  lemma {:induction false} ErrorsAreReal(capacity: nat, script: seq<Cid>, actions: seq<Action>)
    requires Run(Start(capacity, script), actions).Some?
    ensures SeeError in actions ==> BeginRelease in actions || Reported(Start(capacity, script), actions) > 0
  {
    if actions != [] {
      var front, a := actions[..|actions| - 1], actions[|actions| - 1];
      assert forall x :: x in actions <==> x in front || x == a;
      ErrorsAreReal(capacity, script, front);
      if a == SeeError {
        SeenErrorIsReal(capacity, script, front);
      }
    }
  }

  lemma SeenErrorIsReal(capacity: nat, script: seq<Cid>, actions: seq<Action>)
    requires Run(Start(capacity, script), actions).Some?
    requires Step(Run(Start(capacity, script), actions).value, SeeError).Some?
    ensures BeginRelease in actions || Reported(Start(capacity, script), actions) > 0
  {
    ErrorsAreConserved(capacity, script, actions);
    NothingIsGivenUp(capacity, script, actions);
    RunsKeepLifecycle(Start(capacity, script), actions);
    SeesAnError(Run(Start(capacity, script), actions).value);
  }

  lemma SeesAnError(s: Sys)
    requires Lifecycle(s) && Step(s, SeeError).Some?
    ensures s.flags.errors > 0 || s.flags.closed
  {
  }

  // ---- nobody waits in vain --------------------------------------------------------------------

  /** A producer that has come to its end has closed the channel or reported an error, not both. */
  predicate EndIsKnown(s: Sys, reported: nat) {
    && (reported > 0 ==> !s.flags.processingDone && (s.producer.Returning? || s.producer.Exited?))
    && (s.producer.StreamClosed? ==> s.channel.closed)
    && (s.producer.Returning? || s.producer.Exited? ==> s.channel.closed || reported > 0)
  }

  lemma ProducerEnds(s: Sys, a: Action, reported: nat)
    requires Lifecycle(s) && Orderly(s) && EndIsKnown(s, reported) && ProducerStep(s, a).Some?
    ensures EndIsKnown(ProducerStep(s, a).value, reported + (if ReportsError(s, a) then 1 else 0))
  {
    if a == ProducerProceeds {
      if Putting(s.producer) {
        PutFrame(s);
      } else {
        FinishEnds(s, reported);
      }
    }
  }

  lemma FinishEnds(s: Sys, reported: nat)
    requires Lifecycle(s) && Orderly(s) && EndIsKnown(s, reported) && Spawned(s) && !Putting(s.producer)
    ensures EndIsKnown(FinishProceed(s), reported + (if ReportsError(s, ProducerProceeds) then 1 else 0))
  {
  }

  lemma StepEnds(s: Sys, a: Action, reported: nat)
    requires Lifecycle(s) && Orderly(s) && EndIsKnown(s, reported) && Step(s, a).Some?
    ensures EndIsKnown(Step(s, a).value, reported + (if ReportsError(s, a) then 1 else 0))
  {
    if Step(s, a) == NextStep(s, a) {
      NextFrame(s, a);
    } else if Step(s, a) == ProducerStep(s, a) {
      ProducerEnds(s, a, reported);
    } else if Step(s, a) == ReleaseStep(s, a) {
      ReleaseFrame(s, a);
      StaysClosed(s, a);
    }
  }

  lemma StaysClosed(s: Sys, a: Action)
    requires ReleaseStep(s, a).Some?
    ensures s.channel.closed ==> ReleaseStep(s, a).value.channel.closed
  {
  }

  lemma {:induction false} RunsEnd(capacity: nat, script: seq<Cid>, actions: seq<Action>)
    requires Run(Start(capacity, script), actions).Some? && ReleasedOutsideWindow(Start(capacity, script), actions)
    ensures EndIsKnown(Run(Start(capacity, script), actions).value, Reported(Start(capacity, script), actions))
  {
    if actions != [] {
      var s0, front, a := Start(capacity, script), actions[..|actions| - 1], actions[|actions| - 1];
      assert forall k :: 0 <= k < |front| ==> front[..k] == actions[..k];
      RunsEnd(capacity, script, front);
      RunsKeepOrder(s0, front);
      StepEnds(Run(s0, front).value, a, Reported(s0, front));
    }
  }

  /** What ends the waiting of a Next, or brings it closer: a block, the end of the stream, an error, or a step of
      the producer. */
  function NextEvent(s: Sys): Action {
    if s.channel.buffer != [] then Receive
    else if s.channel.closed then SeeEnd
    else if s.flags.errors > 0 then SeeError
    else if s.producer.Sending? then Send
    else ProducerProceeds
  }

  lemma EventIsPossible(s: Sys)
    requires Lifecycle(s) && s.next.Selecting? && s.channel.capacity > 0
    requires s.producer.Exited? ==> s.channel.closed || s.flags.errors > 0
    ensures Step(s, NextEvent(s)).Some?
  {
  }

  lemma StepKeepsCapacity(s: Sys, a: Action)
    requires Step(s, a).Some?
    ensures Step(s, a).value.channel.capacity == s.channel.capacity
  {
    if Step(s, a) == NextStep(s, a) {
      NextKeepsCapacity(s, a);
    } else if Step(s, a) == ReleaseStep(s, a) {
      FileFlow.ReleaseBooks(s, a);
    }
  }

  lemma NextKeepsCapacity(s: Sys, a: Action)
    requires NextStep(s, a).Some?
    ensures NextStep(s, a).value.channel.capacity == s.channel.capacity
  {
  }

  lemma {:induction false} CapacityStays(capacity: nat, script: seq<Cid>, actions: seq<Action>)
    requires Run(Start(capacity, script), actions).Some?
    ensures Run(Start(capacity, script), actions).value.channel.capacity == capacity
  {
    if actions != [] {
      CapacityStays(capacity, script, actions[..|actions| - 1]);
      StepKeepsCapacity(Run(Start(capacity, script), actions[..|actions| - 1]).value, actions[|actions| - 1]);
    }
  }

  /** In every run in which the channel has room for a block, a Next that waits can go on, or the producer can: the
      one exception is a Next after the one that took the producer's error, which waits for cancellation. */
  lemma NobodyWaitsInVain(capacity: nat, script: seq<Cid>, actions: seq<Action>)
    requires capacity > 0 && Run(Start(capacity, script), actions).Some?
    requires ReleasedOutsideWindow(Start(capacity, script), actions)
    requires Run(Start(capacity, script), actions).value.next.Selecting?
    ensures var s := Run(Start(capacity, script), actions).value;
            Step(s, NextEvent(s)).Some? || (s.producer.Exited? && Taken(Start(capacity, script), actions) == 1)
  {
    var s0 := Start(capacity, script);
    RunsKeepOrder(s0, actions);
    RunsEnd(capacity, script, actions);
    ErrorsAreConserved(capacity, script, actions);
    CapacityStays(capacity, script, actions);
    var s := Run(s0, actions).value;
    if !(s.producer.Exited? && Taken(s0, actions) == 1) {
      EventIsPossible(s);
    }
  }

  /** That exception is real: once the error was taken and the channel is empty, a Next that waits, and so the whole
      upload, goes on only if the context is cancelled or Release is called. */
  lemma LaterNextWaits(capacity: nat, script: seq<Cid>, actions: seq<Action>, a: Action)
    requires Run(Start(capacity, script), actions).Some? && Taken(Start(capacity, script), actions) == 1
    requires ParentCancels !in actions && BeginRelease !in actions
    requires var s := Run(Start(capacity, script), actions).value;
             s.next.Selecting? && s.producer.Exited? && s.channel.buffer == [] && Step(s, a).Some?
    ensures a == ParentCancels || a == BeginRelease
  {
    var s0, s := Start(capacity, script), Run(Start(capacity, script), actions).value;
    NeverReleased(s0, actions);
    RunsKeepOrder(s0, actions);
    RunsEnd(capacity, script, actions);
    FileFlow.RunsKeepFlow(capacity, script, actions);
    ErrorsAreConserved(capacity, script, actions);
    NothingIsGivenUp(capacity, script, actions);
    NothingIsPossible(s, a);
  }

  lemma NeverReleased(s: Sys, actions: seq<Action>)
    requires BeginRelease !in actions
    ensures ReleasedOutsideWindow(s, actions)
  {
    forall k | 0 <= k < |actions| ensures actions[k] != BeginRelease {
      assert actions[k] in actions;
    }
  }

  lemma NothingIsPossible(s: Sys, a: Action)
    requires Lifecycle(s) && s.next.Selecting? && s.producer.Exited? && s.channel.buffer == [] && s.flags.errors == 0
    requires !s.channel.closed && !s.flags.closed && !s.flags.cancelled && Step(s, a).Some?
    ensures a == ParentCancels || a == BeginRelease
  {
  }

  // ---- nothing happens afterwards --------------------------------------------------------------

  /** Next is not past its check of the context. */
  predicate AtTheDoor(n: NextPc) {
    n.Idle? || n.FoundOpen?
  }

  /** After cancellation no Next that has not got past its checks ever takes a block, and after Release has begun
      a new Next does nothing at all. */
  lemma {:induction false} NothingIsDelivered(s: Sys, actions: seq<Action>)
    requires s.flags.cancelled && AtTheDoor(s.next) && Run(s, actions).Some?
    ensures var u := Run(s, actions).value;
            && u.flags.cancelled && AtTheDoor(u.next) && u.channel.received == s.channel.received
            && (s.flags.closed ==> u.flags.closed && (s.next.Idle? ==> u.next.Idle?))
  {
    if actions != [] {
      NothingIsDelivered(s, actions[..|actions| - 1]);
      DeliversNothing(Run(s, actions[..|actions| - 1]).value, actions[|actions| - 1]);
    }
  }

  /** What is needed of the other threads. */
  predicate SameDelivery(s: Sys, u: Sys) {
    && u.next == s.next && u.channel.received == s.channel.received
    && (s.flags.cancelled ==> u.flags.cancelled) && (s.flags.closed ==> u.flags.closed)
  }

  lemma ProducerDelivers(s: Sys, a: Action)
    requires ProducerStep(s, a).Some?
    ensures SameDelivery(s, ProducerStep(s, a).value)
  {
    if a == ProducerProceeds {
      if Putting(s.producer) {
        PutFrame(s);
      } else {
        FinishFlagsFrame(s.producer, s.flags);
      }
    }
  }

  lemma NextStaysOut(s: Sys, a: Action)
    requires s.flags.cancelled && AtTheDoor(s.next) && NextStep(s, a).Some?
    ensures var u := NextStep(s, a).value;
            && u.flags == s.flags && AtTheDoor(u.next) && u.channel == s.channel
            && (s.flags.closed && s.next.Idle? ==> u.next.Idle?)
  {
  }

  lemma DeliversNothing(s: Sys, a: Action)
    requires s.flags.cancelled && AtTheDoor(s.next) && Step(s, a).Some?
    ensures var u := Step(s, a).value;
            && u.flags.cancelled && AtTheDoor(u.next) && u.channel.received == s.channel.received
            && (s.flags.closed ==> u.flags.closed && (s.next.Idle? ==> u.next.Idle?))
  {
    if Step(s, a) == NextStep(s, a) {
      NextStaysOut(s, a);
    } else if Step(s, a) == ProducerStep(s, a) {
      ProducerDelivers(s, a);
    } else if Step(s, a) == ReleaseStep(s, a) {
      ReleaseDelivers(s, a);
    }
  }

  lemma ReleaseDelivers(s: Sys, a: Action)
    requires ReleaseStep(s, a).Some?
    ensures SameDelivery(s, ReleaseStep(s, a).value)
  {
    ReleaseFrame(s, a);
    FileFlow.ReleaseBooks(s, a);
    FlagsStay(s, a);
  }

  lemma FlagsStay(s: Sys, a: Action)
    requires ReleaseStep(s, a).Some?
    ensures var f, g := s.flags, ReleaseStep(s, a).value.flags;
            && (f.cancelled ==> g.cancelled) && (f.closed ==> g.closed) && (f.storeClosed ==> g.storeClosed)
            && (f.storeCancelled ==> g.storeCancelled) && g.errors == f.errors
  {
    if a == BeginRelease {
    } else if s.release < CANCELLED {
    } else if s.release == CANCELLED {
    } else if s.release <= STORE_FLAGGED {
    } else {
    }
  }

  /** What Close has emptied so far. */
  predicate Forgotten(s: Sys) {
    && (s.release >= PENDING_CLEARED ==> s.books.pending == {})
    && (s.release >= PROCESSED_CLEARED ==> s.books.processed == {})
    && (s.release >= RELEASED ==> s.books.pendingCount == 0 && s.books.processedCount == 0)
  }

  /** Neither the producer nor a Next at the door touches the books of a store that is being closed. */
  lemma ForgetsOn(s: Sys, a: Action)
    requires Lifecycle(s) && Orderly(s) && s.flags.cancelled && AtTheDoor(s.next) && Forgotten(s) && Step(s, a).Some?
    ensures Forgotten(Step(s, a).value)
  {
    if Step(s, a) == NextStep(s, a) {
      NextFrame(s, a);
      NextKeepsBooks(s, a);
    } else if Step(s, a) == ProducerStep(s, a) {
      assert s.release < WAITED;
      ProducerKeepsRelease(s, a);
    }
  }

  lemma NextKeepsBooks(s: Sys, a: Action)
    requires AtTheDoor(s.next) && NextStep(s, a).Some?
    ensures NextStep(s, a).value.books == s.books
  {
  }

  lemma ProducerKeepsRelease(s: Sys, a: Action)
    requires ProducerStep(s, a).Some?
    ensures ProducerStep(s, a).value.release == s.release
  {
  }

  /** When Release returns and no Next was under way, the store has forgotten every block, and its counters are
      zero. */
  lemma {:induction false} ReleaseForgets(s: Sys, actions: seq<Action>)
    requires Lifecycle(s) && Orderly(s) && BASE_CLOSED <= s.release <= CHANNEL_CLOSED
    requires s.flags.cancelled && AtTheDoor(s.next) && Run(s, actions).Some?
    ensures Forgotten(Run(s, actions).value)
  {
    if actions != [] {
      var front, a := actions[..|actions| - 1], actions[|actions| - 1];
      ReleaseForgets(s, front);
      FileShutdown.AfterBegin(s, front);
      NothingIsDelivered(s, front);
      ForgetsOn(Run(s, front).value, a);
    }
  }

  /** The store's last look at its flags is behind this put. */
  predicate PastTheFlags(p: ProducerPc) {
    p.SawOpen2? || p.Admitted?
  }

  /** A closed store takes no block in, except for a put that is past its checks, and no put gets past the first
      of them. */
  lemma {:induction false} ClosedStoreAcceptsNothing(s: Sys, actions: seq<Action>)
    requires s.flags.storeClosed && !PastTheFlags(s.producer) && Run(s, actions).Some?
    ensures var u := Run(s, actions).value;
            && u.flags.storeClosed && !PastTheFlags(u.producer) && u.books.accepted == s.books.accepted
            && (!s.producer.SawOpen? ==> !u.producer.SawOpen?)
  {
    if actions != [] {
      ClosedStoreAcceptsNothing(s, actions[..|actions| - 1]);
      var u, a := Run(s, actions[..|actions| - 1]).value, actions[|actions| - 1];
      AcceptsNothing(u, a);
    }
  }

  lemma AcceptsNothing(s: Sys, a: Action)
    requires s.flags.storeClosed && !PastTheFlags(s.producer) && Step(s, a).Some?
    ensures var u := Step(s, a).value;
            && u.flags.storeClosed && !PastTheFlags(u.producer) && u.books.accepted == s.books.accepted
            && (!s.producer.SawOpen? ==> !u.producer.SawOpen?)
  {
    if Step(s, a) == NextStep(s, a) {
      NextFrame(s, a);
      NextAccepts(s, a);
    } else if Step(s, a) == ProducerStep(s, a) {
      ProducerAccepts(s, a);
    } else if Step(s, a) == ReleaseStep(s, a) {
      ReleaseFrame(s, a);
      FileFlow.ReleaseBooks(s, a);
      FlagsStay(s, a);
    }
  }

  lemma NextAccepts(s: Sys, a: Action)
    requires NextStep(s, a).Some?
    ensures NextStep(s, a).value.books.accepted == s.books.accepted
  {
  }

  lemma ProducerAccepts(s: Sys, a: Action)
    requires s.flags.storeClosed && !PastTheFlags(s.producer) && ProducerStep(s, a).Some?
    ensures var u := ProducerStep(s, a).value;
            && u.flags.storeClosed && !PastTheFlags(u.producer) && u.books.accepted == s.books.accepted
            && (!s.producer.SawOpen? ==> !u.producer.SawOpen?)
  {
    if a == ProducerProceeds {
      if Putting(s.producer) {
        PutFrame(s);
      } else {
        FinishFlagsFrame(s.producer, s.flags);
      }
    }
  }

  /** A put that finds the processing done takes nothing in either. */
  lemma DoneStoreAcceptsNothing(s: Sys, a: Action)
    requires s.flags.processingDone && !s.producer.Admitted? && Step(s, a).Some?
    ensures var u := Step(s, a).value;
            u.flags.processingDone && !u.producer.Admitted? && u.books.accepted == s.books.accepted
  {
    if Step(s, a) == NextStep(s, a) {
      NextFrame(s, a);
      NextAccepts(s, a);
    } else if Step(s, a) == ProducerStep(s, a) {
      DoneProducerAccepts(s, a);
    } else if Step(s, a) == ReleaseStep(s, a) {
      ReleaseFrame(s, a);
      FileFlow.ReleaseBooks(s, a);
    }
  }

  lemma DoneProducerAccepts(s: Sys, a: Action)
    requires s.flags.processingDone && !s.producer.Admitted? && ProducerStep(s, a).Some?
    ensures var u := ProducerStep(s, a).value;
            u.flags.processingDone && !u.producer.Admitted? && u.books.accepted == s.books.accepted
  {
    if a == ProducerProceeds && Putting(s.producer) {
      PutFrame(s);
    }
  }
}
