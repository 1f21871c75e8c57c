/** Release against a running upload: exactly when it is safe, and that it always finishes. */
module FileShutdown {
  import opened Wrappers
  import opened Cids
  import opened FilePipeline

  // ---- exactly when Release is safe ------------------------------------------------------------

  lemma {:induction false} AfterBegin(s: Sys, actions: seq<Action>)
    requires Lifecycle(s) && Orderly(s) && s.release >= BASE_CLOSED && Run(s, actions).Some?
    ensures var t := Run(s, actions).value; Lifecycle(t) && Orderly(t) && t.release >= BASE_CLOSED
  {
    if actions != [] {
      var front, a := actions[..|actions| - 1], actions[|actions| - 1];
      AfterBegin(s, front);
      StepKeepsLifecycle(Run(s, front).value, a);
      StepKeepsOrder(Run(s, front).value, a);
      ReleaseGoesOn(Run(s, front).value, a);
    }
  }

  lemma ReleaseGoesOn(s: Sys, a: Action)
    requires Step(s, a).Some?
    ensures Step(s, a).value.release >= s.release
  {
  }

  /** Some continuation of s sends on a closed channel, and the producer panics. */
  ghost predicate CanPanic(s: Sys) {
    exists t :: Reaches(s, t) && (t.sendOnClosed || t.errorOnClosed)
  }

  /** Some continuation of s sends a block on the closed delivery channel. */
  ghost predicate CanSendOnClosed(s: Sys) {
    exists t :: Reaches(s, t) && t.sendOnClosed
  }

  lemma NextGoes(s: Sys, t: Sys)
    requires Reaches(s, t) && !t.next.Idle? && !t.next.Selecting?
    ensures Reaches(s, NextProceed(t))
  {
    ReachesStep(s, t, NextProceeds);
  }

  lemma ProducerGoes(s: Sys, t: Sys)
    requires Reaches(s, t) && !t.producer.Sending? && !t.producer.NotSpawned? && !t.producer.Exited?
    ensures Reaches(s, ProducerProceed(t))
  {
    ReachesStep(s, t, ProducerProceeds);
  }

  /** The producer is about to start although Release has seen no goroutine to wait for. */
  predicate Missed(s: Sys) {
    && s.next == MarkedStarted && s.producer == NotSpawned && s.release == WAITED
    && s.books.pending == {} && !s.flags.processingDone && !s.flags.storeClosed && !s.channel.closed
    && s.channel.closes == 0
  }

  lemma FinishWindow(s: Sys)
    requires Lifecycle(s) && s.release == NOT_RELEASING && StartWindow(s)
    ensures exists t :: Reaches(Step(s, BeginRelease).value, t) && Lifecycle(t) && t.next == MarkedStarted
                        && t.release == BASE_CLOSED && t.script == s.script
  {
    var u := Step(s, BeginRelease).value;
    ReleaseKeepsLifecycle(s, BeginRelease);
    ReachesSelf(u);
    if u.next == FoundOpen {
      var v := NextProceed(u);
      NextGoes(u, u);
      NextKeepsLifecycle(u, NextProceeds);
      NextGoes(u, v);
      NextKeepsLifecycle(v, NextProceeds);
      assert NextProceed(v).next == MarkedStarted;
    } else if u.next == FoundLive {
      NextGoes(u, u);
      NextKeepsLifecycle(u, NextProceeds);
      assert NextProceed(u).next == MarkedStarted;
    } else {
      assert u.next == MarkedStarted;
    }
  }

  lemma ReleaseMisses(s: Sys, t: Sys)
    requires Reaches(s, t) && Lifecycle(t) && t.next == MarkedStarted && t.release == BASE_CLOSED
    ensures exists u :: Reaches(s, u) && Missed(u) && u.script == t.script
  {
    ReachesStep(s, t, ReleaseProceeds);
    var v := Step(t, ReleaseProceeds).value;
    ReachesStep(s, v, ReleaseProceeds);
    assert Missed(Step(v, ReleaseProceeds).value) && Step(v, ReleaseProceeds).value.script == t.script;
  }

  /** A put that has passed every check. */
  predicate AboutToSend(s: Sys) {
    s.producer.Sending? && WAITED <= s.release <= CHANNEL_CLOSED && s.channel.closes == 0 && !s.channel.closed
  }

  lemma PutMoves(s: Sys, base: Sys, from: ProducerPc, to: ProducerPc)
    requires Reaches(s, base.(producer := from)) && Putting(from)
    requires PutProceed(base.(producer := from)) == base.(producer := to)
    ensures Reaches(s, base.(producer := to))
  {
    ProducerGoes(s, base.(producer := from));
  }

  lemma PutIsAdmitted(s: Sys, t: Sys)
    requires Reaches(s, t) && Missed(t) && t.script != []
    ensures exists u :: Reaches(s, u) && AboutToSend(u) && u.release == WAITED
  {
    var c := t.script[0];
    NextGoes(s, t);
    var u := NextProceed(t);
    ProducerGoes(s, u);
    var v := u.(script := u.script[1..]);
    assert ProducerProceed(u) == v.(producer := EnteredPut(c));
    PutPassesChecks(s, v, c);
  }

  lemma PutPassesChecks(s: Sys, v: Sys, c: Cid)
    requires Reaches(s, v.(producer := EnteredPut(c))) && v.release == WAITED && v.channel.closes == 0
    requires !v.channel.closed
    requires !v.flags.storeClosed && !v.flags.processingDone && v.books.pending == {}
    ensures exists u :: Reaches(s, u) && AboutToSend(u) && u.release == WAITED
  {
    PutMoves(s, v, EnteredPut(c), SawOpen(c));
    PutMoves(s, v, SawOpen(c), SawOpen2(c));
    PutMoves(s, v, SawOpen2(c), Admitted(c));
    ProducerGoes(s, v.(producer := Admitted(c)));
    assert AboutToSend(ProducerProceed(v.(producer := Admitted(c))));
  }

  lemma ChannelIsClosed(s: Sys, t: Sys)
    requires Reaches(s, t) && AboutToSend(t) && t.release == WAITED
    ensures exists u :: Reaches(s, u) && u.producer.Sending? && u.channel.closed
  {
    ReachesStep(s, t, ReleaseProceeds);
    var u1 := Step(t, ReleaseProceeds).value;
    assert AboutToSend(u1) && u1.release == ERRORS_CLOSED;
    ReachesStep(s, u1, ReleaseProceeds);
    var u2 := Step(u1, ReleaseProceeds).value;
    assert AboutToSend(u2) && u2.release == STORE_FLAGGED;
    ReachesStep(s, u2, ReleaseProceeds);
    var u3 := Step(u2, ReleaseProceeds).value;
    assert AboutToSend(u3) && u3.release == STORE_CANCELLED;
    ReachesStep(s, u3, ReleaseProceeds);
    assert Step(u3, ReleaseProceeds).value.channel.closed;
  }

  /** From the window Release misses the producer that is about to start. */
  lemma WindowIsMissed(s: Sys)
    requires Lifecycle(s) && s.release == NOT_RELEASING && StartWindow(s)
    ensures exists t :: Reaches(Step(s, BeginRelease).value, t) && Missed(t) && t.script == s.script
  {
    var u := Step(s, BeginRelease).value;
    FinishWindow(s);
    var t :| Reaches(u, t) && Lifecycle(t) && t.next == MarkedStarted && t.release == BASE_CLOSED
             && t.script == s.script;
    ReleaseMisses(u, t);
  }

  /** A block can then be sent on the closed delivery channel. */
  lemma WindowCanSend(s: Sys)
    requires Lifecycle(s) && s.release == NOT_RELEASING && StartWindow(s) && s.script != []
    ensures CanSendOnClosed(Step(s, BeginRelease).value)
  {
    var u := Step(s, BeginRelease).value;
    WindowIsMissed(s);
    var t2 :| Reaches(u, t2) && Missed(t2) && t2.script == s.script;
    PutIsAdmitted(u, t2);
    var t3 :| Reaches(u, t3) && AboutToSend(t3) && t3.release == WAITED;
    ChannelIsClosed(u, t3);
    var t4 :| Reaches(u, t4) && t4.producer.Sending? && t4.channel.closed;
    ReachesStep(u, t4, Send);
    assert Step(t4, Send).value.sendOnClosed;
  }

  /** And whatever the file, a failed read can be reported on the closed error channel. */
  lemma WindowCanPanic(s: Sys)
    requires Lifecycle(s) && s.release == NOT_RELEASING && StartWindow(s)
    ensures CanPanic(Step(s, BeginRelease).value)
  {
    var u := Step(s, BeginRelease).value;
    WindowIsMissed(s);
    var t :| Reaches(u, t) && Missed(t);
    ErrorIsSent(u, t);
  }

  lemma ErrorIsSent(s: Sys, t: Sys)
    requires Reaches(s, t) && Missed(t)
    ensures CanPanic(s)
  {
    NextGoes(s, t);
    var u1 := NextProceed(t);
    ReachesStep(s, u1, ReadFails);
    var u2 := u1.(producer := Failing);
    ReachesStep(s, u2, ReleaseProceeds);
    var u3 := Step(u2, ReleaseProceeds).value;
    assert u3.producer == Failing && u3.flags.errorsClosed;
    ProducerGoes(s, u3);
    assert ProducerProceed(u3).errorOnClosed;
  }

  /** Calling Release can make the producer panic exactly when a Next has passed its checks and has not started
      the producer yet: Release does not see that producer. */
  lemma ReleaseCanPanicIff(capacity: nat, script: seq<Cid>, actions: seq<Action>)
    requires Run(Start(capacity, script), actions).Some?
    requires Run(Start(capacity, script), actions).value.release == NOT_RELEASING
    ensures var s := Run(Start(capacity, script), actions).value;
            CanPanic(Step(s, BeginRelease).value) <==> StartWindow(s)
  {
    var s := Run(Start(capacity, script), actions).value;
    BeforeRelease(Start(capacity, script), actions);
    if StartWindow(s) {
      WindowCanPanic(s);
    } else {
      OutsideIsSafe(s);
    }
  }

  lemma OutsideIsSafe(s: Sys)
    requires Lifecycle(s) && Orderly(s) && s.release == NOT_RELEASING && !StartWindow(s)
    ensures !CanPanic(Step(s, BeginRelease).value)
  {
    StepKeepsLifecycle(s, BeginRelease);
    StepKeepsOrder(s, BeginRelease);
    var u := Step(s, BeginRelease).value;
    forall t | Reaches(u, t) ensures !t.sendOnClosed && !t.errorOnClosed {
      var rest :| Run(u, rest) == Some(t);
      AfterBegin(u, rest);
    }
  }

  /** A block is sent on the closed delivery channel in some continuation exactly when, besides, the file has a
      block left to put. */
  lemma ReleaseCanSendIff(capacity: nat, script: seq<Cid>, actions: seq<Action>)
    requires Run(Start(capacity, script), actions).Some?
    requires Run(Start(capacity, script), actions).value.release == NOT_RELEASING
    ensures var s := Run(Start(capacity, script), actions).value;
            CanSendOnClosed(Step(s, BeginRelease).value) <==> StartWindow(s) && s.script != []
  {
    var s := Run(Start(capacity, script), actions).value;
    BeforeRelease(Start(capacity, script), actions);
    if !StartWindow(s) {
      OutsideIsSafe(s);
    } else if s.script != [] {
      WindowCanSend(s);
    } else {
      NothingToSend(Step(s, BeginRelease).value);
    }
  }

  /** No block is being put, and none is left. */
  predicate NoPut(s: Sys) {
    && s.script == [] && !s.sendOnClosed && !s.producer.EnteredPut? && !s.producer.SawOpen? && !s.producer.SawOpen2?
    && !s.producer.Admitted? && !s.producer.Sending?
  }

  lemma StepKeepsNoPut(s: Sys, a: Action)
    requires NoPut(s) && Step(s, a).Some?
    ensures NoPut(Step(s, a).value)
  {
    if Step(s, a) == NextStep(s, a) {
      NextFrame(s, a);
    }
  }

  lemma {:induction false} RunKeepsNoPut(s: Sys, actions: seq<Action>)
    requires NoPut(s) && Run(s, actions).Some?
    ensures NoPut(Run(s, actions).value)
  {
    if actions != [] {
      RunKeepsNoPut(s, actions[..|actions| - 1]);
      StepKeepsNoPut(Run(s, actions[..|actions| - 1]).value, actions[|actions| - 1]);
    }
  }

  lemma NothingToSend(s: Sys)
    requires NoPut(s)
    ensures !CanSendOnClosed(s)
  {
    forall t | Reaches(s, t) ensures !t.sendOnClosed {
      var rest :| Run(s, rest) == Some(t);
      RunKeepsNoPut(s, rest);
    }
  }

  /** The window is reached by a first call of Next that stops after its check of `closed`. */
  lemma WindowIsReachable(capacity: nat, script: seq<Cid>)
    ensures Run(Start(capacity, script), [CallNext]).Some?
    ensures var s := Run(Start(capacity, script), [CallNext]).value; s.release == NOT_RELEASING && StartWindow(s)
  {
    assert [CallNext][..0] == [];
  }

  lemma {:induction false} BeforeRelease(s: Sys, actions: seq<Action>)
    requires Lifecycle(s) && Orderly(s) && Run(s, actions).Some? && Run(s, actions).value.release == NOT_RELEASING
    ensures Lifecycle(Run(s, actions).value) && Orderly(Run(s, actions).value)
  {
    if actions != [] {
      var front, a := actions[..|actions| - 1], actions[|actions| - 1];
      ReleaseGoesOn(Run(s, front).value, a);
      BeforeRelease(s, front);
      StepKeepsLifecycle(Run(s, front).value, a);
      StepKeepsOrder(Run(s, front).value, a);
    }
  }

  // ---- shutdown always finishes ----------------------------------------------------------------

  function PcRank(p: ProducerPc): nat {
    match p
    case EnteredPut(_) => 15
    case SawOpen(_) => 14
    case SawOpen2(_) => 13
    case Admitted(_) => 12
    case Sending(_) => 11
    case Working => 10
    case AllPut => 9
    case Completed => 8
    case SeenNotDone => 7
    case DoneSet => 6
    case StreamClosed => 5
    case Failing => 2
    case Returning => 1
    case Exited => 0
    case NotSpawned => 0
  }

  /** How many steps of the producer and of Release are left at most. */
  function Rank(s: Sys): int {
    8 * |s.script| + PcRank(s.producer) + (RELEASED - s.release)
  }

  /** The steps of the producer and of Release; the consumer and the context owe nothing. */
  predicate Helpful(a: Action) {
    || (a == ProducerProceeds || a == Send || a == StoreGone)
    || (a == ContextGone || a == ReadFails || a == ReleaseProceeds)
  }

  function HelpfulSteps(actions: seq<Action>): nat {
    if actions == [] then 0
    else HelpfulSteps(actions[..|actions| - 1]) + if Helpful(actions[|actions| - 1]) then 1 else 0
  }

  lemma ProducerRank(s: Sys, a: Action)
    requires ProducerStep(s, a).Some?
    ensures Rank(ProducerStep(s, a).value) < Rank(s)
  {
    if a == ProducerProceeds {
      ProceedRank(s);
    }
  }

  lemma ProceedRank(s: Sys)
    requires !s.producer.Sending? && !s.producer.NotSpawned? && !s.producer.Exited?
    ensures Rank(ProducerProceed(s)) < Rank(s)
  {
  }

  lemma NextRank(s: Sys, a: Action)
    requires Lifecycle(s) && Orderly(s) && s.release >= BASE_CLOSED && NextStep(s, a).Some?
    ensures Rank(NextStep(s, a).value) == Rank(s)
  {
  }

  lemma RankFalls(s: Sys, a: Action)
    requires Lifecycle(s) && Orderly(s) && s.release >= BASE_CLOSED && Step(s, a).Some?
    ensures Rank(Step(s, a).value) <= Rank(s) - (if Helpful(a) then 1 else 0)
  {
    match a
    case ParentCancels =>
    case BeginRelease =>
    case ReleaseProceeds => ReleaseFrame(s, a);
    case ProducerProceeds => ProducerRank(s, a);
    case Send => ProducerRank(s, a);
    case StoreGone => ProducerRank(s, a);
    case ContextGone => ProducerRank(s, a);
    case ReadFails => ProducerRank(s, a);
    case _ => NextRank(s, a);
  }

  /** What can be done next: while it waits for the producer, Release relies on a step of the producer, which
      is never stuck, not even on a full channel that nobody reads. */
  function NextHelp(s: Sys): Action {
    if s.release == CANCELLED && s.flags.goroutines > 0 then
      if s.producer.Sending? then ContextGone else ProducerProceeds
    else ReleaseProceeds
  }

  lemma HelpIsPossible(s: Sys)
    requires Lifecycle(s) && Orderly(s) && BASE_CLOSED <= s.release < RELEASED
    ensures Helpful(NextHelp(s)) && Step(s, NextHelp(s)).Some?
  {
  }

  lemma {:induction false} StepsAreBounded(s: Sys, actions: seq<Action>)
    requires Lifecycle(s) && Orderly(s) && BASE_CLOSED <= s.release <= RELEASED && Run(s, actions).Some?
    ensures var t := Run(s, actions).value; HelpfulSteps(actions) <= Rank(s) - Rank(t) && t.release <= RELEASED
  {
    if actions != [] {
      var front, a := actions[..|actions| - 1], actions[|actions| - 1];
      StepsAreBounded(s, front);
      AfterBegin(s, front);
      RankFalls(Run(s, front).value, a);
      StageBound(Run(s, front).value, a);
    }
  }

  /** Once Release has begun outside the window, some step of the producer or of Release is possible until
      Release returns, and there are at most Rank of them, whatever the consumer does. */
  lemma ShutdownFinishes(s: Sys, actions: seq<Action>)
    requires Lifecycle(s) && Orderly(s) && BASE_CLOSED <= s.release <= RELEASED && Run(s, actions).Some?
    ensures var t := Run(s, actions).value;
            && HelpfulSteps(actions) <= Rank(s) - Rank(t) && t.release <= RELEASED
            && (t.release == RELEASED || (Helpful(NextHelp(t)) && Step(t, NextHelp(t)).Some?))
  {
    AfterBegin(s, actions);
    StepsAreBounded(s, actions);
    var t := Run(s, actions).value;
    if t.release < RELEASED {
      HelpIsPossible(t);
    }
  }

  lemma StageBound(s: Sys, a: Action)
    requires s.release <= RELEASED && Step(s, a).Some?
    ensures Step(s, a).value.release <= RELEASED
  {
  }

  /** The same from the start of the upload: Release outside the window never makes the producer panic, and
      it returns after a bounded number of steps of its own and of the producer. */
  lemma ReleaseIsSafe(capacity: nat, script: seq<Cid>, before: seq<Action>, after: seq<Action>)
    requires Run(Start(capacity, script), before).Some?
    requires var s := Run(Start(capacity, script), before).value;
             s.release == NOT_RELEASING && !StartWindow(s) && Run(Step(s, BeginRelease).value, after).Some?
    ensures var u := Step(Run(Start(capacity, script), before).value, BeginRelease).value;
            var t := Run(u, after).value;
            && !t.sendOnClosed && !t.errorOnClosed && t.channel.closes <= 1
            && HelpfulSteps(after) <= Rank(u) - Rank(t)
            && (t.release == RELEASED || Step(t, NextHelp(t)).Some?)
  {
    var s := Run(Start(capacity, script), before).value;
    BeforeRelease(Start(capacity, script), before);
    StepKeepsLifecycle(s, BeginRelease);
    StepKeepsOrder(s, BeginRelease);
    var u := Step(s, BeginRelease).value;
    AfterBegin(u, after);
    ShutdownFinishes(u, after);
  }
}
