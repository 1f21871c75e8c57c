/** Calls of Done, WaitDone and Reset interleaved (internal/protocol/done_tracker.go). A step is one
    critical section, one close, or one outcome of a select. */
module WakeUps {
  import opened Wrappers
  import opened Cids
  import opened DoneTrackerSpec

  datatype Thread =
    | Closing(cid: Cid, pending: seq<Chan>)  // Done has released the lock; these channels are left to close
    | Waiting(ch: Chan)                      // WaitDone blocks in its select
    | Cancelling(ch: Chan)                   // WaitDone saw its context cancelled
    | Returned(cid: Cid, result: bool)       // WaitDone has returned

  /** everDone and doneNow record the calls of Done: all of them, and those since the last Reset. */
  datatype Sys = Sys(tracker: Tracker, threads: seq<Thread>, closed: set<Chan>, doubleClose: bool,
                     everDone: set<Cid>, doneNow: set<Cid>)

  const START := Sys(EMPTY, [], {}, false, {}, {})

  datatype Action =
    | CallDone(cid: Cid)
    | CallWait(cid: Cid)
    | CloseNext(thread: nat)
    | WakeUp(thread: nat)
    | CancelWait(thread: nat)
    | CleanUp(thread: nat)
    | ResetAll

  /** None: the action is not possible now. Closing a closed channel panics; the flag records it. */
  function Step(s: Sys, a: Action): Option<Sys> {
    match a
    case CallDone(c) =>
      var (t, chans) := Complete(s.tracker, c);
      Some(s.(tracker := t, threads := s.threads + [Closing(c, chans)],
              everDone := s.everDone + {c}, doneNow := s.doneNow + {c}))
    case CallWait(c) =>
      var ch := Chan(|s.threads|, c);
      var (t, done) := Register(s.tracker, c, ch);
      Some(s.(tracker := t, threads := s.threads + [if done then Returned(c, true) else Waiting(ch)]))
    case CloseNext(i) =>
      if i < |s.threads| && s.threads[i].Closing? && s.threads[i].pending != [] then
        var ch := s.threads[i].pending[0];
        Some(s.(threads := s.threads[i := Closing(s.threads[i].cid, s.threads[i].pending[1..])],
                closed := s.closed + {ch}, doubleClose := s.doubleClose || ch in s.closed))
      else None
    case WakeUp(i) =>
      if i < |s.threads| && s.threads[i].Waiting? && s.threads[i].ch in s.closed then
        Some(s.(threads := s.threads[i := Returned(s.threads[i].ch.cid, true)]))
      else None
    case CancelWait(i) =>
      if i < |s.threads| && s.threads[i].Waiting? then
        Some(s.(threads := s.threads[i := Cancelling(s.threads[i].ch)]))
      else None
    case CleanUp(i) =>
      if i < |s.threads| && s.threads[i].Cancelling? then
        var ch := s.threads[i].ch;
        Some(s.(tracker := Unregister(s.tracker, ch.cid, ch), threads := s.threads[i := Returned(ch.cid, false)]))
      else None
    case ResetAll => Some(s.(tracker := EMPTY, doneNow := {}))
  }

  function Run(s: Sys, actions: seq<Action>): Option<Sys> {
    if actions == [] then Some(s)
    else
      match Run(s, actions[..|actions| - 1])
      case None => None
      case Some(u) => Step(u, actions[|actions| - 1])
  }

  // ---- safety in every run ---------------------------------------------------------------------

  predicate Listed(s: Sys, ch: Chan) {
    ch.cid in s.tracker.waiters && ch in s.tracker.waiters[ch.cid].chans
  }

  /** Registered channels: listed once, under their own CID, open, and owned by a thread in WaitDone. */
  ghost predicate ListsOk(s: Sys) {
    forall c :: c in s.tracker.waiters ==>
      var w := s.tracker.waiters[c];
      && !w.done && w.chans != [] && Distinct(w.chans) && c !in s.tracker.completed
      && forall ch :: ch in w.chans ==>
           (ch.cid == c && ch.id < |s.threads| && ch !in s.closed && s.threads[ch.id] in {Waiting(ch), Cancelling(ch)})
  }

  ghost predicate QueueOk(s: Sys, t: Thread)
    requires t.Closing?
  {
    && Distinct(t.pending) && t.cid in s.everDone
    && forall ch :: ch in t.pending ==> ch.cid == t.cid && ch.id < |s.threads| && ch !in s.closed && !Listed(s, ch)
  }

  /** Channels queued for closing: open, registered nowhere, queued once, and only after Done. */
  ghost predicate QueuesOk(s: Sys) {
    && (forall i :: 0 <= i < |s.threads| && s.threads[i].Closing? ==> QueueOk(s, s.threads[i]))
    && (forall i, j, ch :: 0 <= i < j < |s.threads| && s.threads[i].Closing? && s.threads[j].Closing? ==>
          !(ch in s.threads[i].pending && ch in s.threads[j].pending))
  }

  ghost predicate ResultsOk(s: Sys) {
    && (forall ch :: ch in s.closed ==> ch.cid in s.everDone && ch.id < |s.threads|)
    && (forall i :: 0 <= i < |s.threads| && s.threads[i].Returned? && s.threads[i].result ==>
                      s.threads[i].cid in s.everDone)
    && (forall i :: 0 <= i < |s.threads| && s.threads[i].Waiting? ==> s.threads[i].ch.id == i)
    && (forall i :: 0 <= i < |s.threads| && s.threads[i].Cancelling? ==> s.threads[i].ch.id == i)
    && s.tracker.completed == s.doneNow <= s.everDone
    && !s.doubleClose
  }

  ghost predicate Safe(s: Sys) {
    ListsOk(s) && QueuesOk(s) && ResultsOk(s)
  }

  lemma StepKeepsLists(s: Sys, a: Action)
    requires Safe(s) && Step(s, a).Some?
    ensures ListsOk(Step(s, a).value)
  {
    match a
    case CallDone(c) =>
    case CallWait(c) => WaitKeepsLists(s, c);
    case CloseNext(i) =>
    case WakeUp(i) =>
    case CancelWait(i) =>
    case CleanUp(i) => CleanUpKeepsLists(s, i);
    case ResetAll =>
  }

  lemma WaitKeepsLists(s: Sys, c: Cid)
    requires Safe(s)
    ensures ListsOk(Step(s, CallWait(c)).value)
  {
    if c in s.tracker.waiters {
      assert forall ch :: ch in s.tracker.waiters[c].chans ==> ch.id < |s.threads|;
    }
  }

  lemma CleanUpKeepsLists(s: Sys, i: nat)
    requires Safe(s) && Step(s, CleanUp(i)).Some?
    ensures ListsOk(Step(s, CleanUp(i)).value)
  {
    var ch := s.threads[i].ch;
    if ch.cid in s.tracker.waiters {
      WithoutDistinct(s.tracker.waiters[ch.cid].chans, ch);
    }
  }

  lemma DoneKeepsQueues(s: Sys, c: Cid)
    requires Safe(s)
    ensures QueuesOk(Step(s, CallDone(c)).value)
  {
  }

  lemma WaitKeepsQueues(s: Sys, c: Cid)
    requires Safe(s)
    ensures QueuesOk(Step(s, CallWait(c)).value)
  {
  }

  lemma CloseKeepsQueues(s: Sys, k: nat)
    requires Safe(s) && Step(s, CloseNext(k)).Some?
    ensures QueuesOk(Step(s, CloseNext(k)).value)
  {
    var u := Step(s, CloseNext(k)).value;
    var p := s.threads[k].pending;
    assert p == [p[0]] + p[1..];
    assert QueueOk(s, s.threads[k]);
    forall i | 0 <= i < |u.threads| && u.threads[i].Closing? ensures QueueOk(u, u.threads[i]) {
      assert QueueOk(s, s.threads[i]);
      if i != k {
        assert p[0] !in s.threads[i].pending;
      }
    }
  }

  lemma CleanUpKeepsQueues(s: Sys, k: nat)
    requires Safe(s) && Step(s, CleanUp(k)).Some?
    ensures QueuesOk(Step(s, CleanUp(k)).value)
  {
    var u, ch := Step(s, CleanUp(k)).value, s.threads[k].ch;
    if ch.cid in s.tracker.waiters {
      WithoutDistinct(s.tracker.waiters[ch.cid].chans, ch);
    }
    assert forall x :: Listed(u, x) ==> Listed(s, x);
    forall i | 0 <= i < |u.threads| && u.threads[i].Closing? ensures QueueOk(u, u.threads[i]) {
      assert QueueOk(s, s.threads[i]);
    }
  }

  lemma StepKeepsQueues(s: Sys, a: Action)
    requires Safe(s) && Step(s, a).Some?
    ensures QueuesOk(Step(s, a).value)
  {
    var u := Step(s, a).value;
    match a
    case CallDone(c) => DoneKeepsQueues(s, c);
    case CallWait(c) => WaitKeepsQueues(s, c);
    case CloseNext(i) => CloseKeepsQueues(s, i);
    case CleanUp(i) => CleanUpKeepsQueues(s, i);
    case _ =>
      forall i | 0 <= i < |u.threads| && u.threads[i].Closing? ensures QueueOk(u, u.threads[i]) {
        assert QueueOk(s, s.threads[i]);
      }
  }

  lemma StepKeepsResults(s: Sys, a: Action)
    requires Safe(s) && Step(s, a).Some?
    ensures ResultsOk(Step(s, a).value)
  {
  }

  lemma {:induction false} RunsStaySafe(actions: seq<Action>)
    requires Run(START, actions).Some?
    ensures Safe(Run(START, actions).value)
  {
    if actions != [] {
      RunsStaySafe(actions[..|actions| - 1]);
      var u := Run(START, actions[..|actions| - 1]).value;
      StepKeepsLists(u, actions[|actions| - 1]);
      StepKeepsQueues(u, actions[|actions| - 1]);
      StepKeepsResults(u, actions[|actions| - 1]);
    }
  }

  /** So the class invariant of the tracker holds in every run. */
  lemma SafeIsSound(s: Sys)
    requires Safe(s)
    ensures Sound(s.tracker)
  {
  }

  lemma SafeCounts(s: Sys)
    requires Safe(s)
    ensures s.tracker.waiters.Keys !! s.tracker.completed
    ensures DoneCids(s.tracker) == s.doneNow
    ensures |DoneWaiters(s.tracker)| + |s.tracker.completed - s.tracker.waiters.Keys| == |s.doneNow|
  {
    assert DoneWaiters(s.tracker) == {};
    assert s.tracker.completed - s.tracker.waiters.Keys == s.doneNow;
  }

  /** In every run, Resets included: no channel is closed twice, WaitDone returns true only for a CID that
      Done was called for, a CID is never both waited for and completed, and Count is the number of CIDs
      done since the last Reset. */
  lemma RunsAreSafe(actions: seq<Action>)
    requires Run(START, actions).Some?
    ensures var s := Run(START, actions).value;
            && !s.doubleClose
            && (forall i :: 0 <= i < |s.threads| && s.threads[i].Returned? && s.threads[i].result ==>
                      s.threads[i].cid in s.everDone)
            && s.tracker.waiters.Keys !! s.tracker.completed
            && DoneCids(s.tracker) == s.doneNow
            && |DoneWaiters(s.tracker)| + |s.tracker.completed - s.tracker.waiters.Keys| == |s.doneNow|
  {
    RunsStaySafe(actions);
    SafeCounts(Run(START, actions).value);
  }

  // ---- what WaitDone answers -------------------------------------------------------------------

  /** The calls that started the threads, in order. */
  function Calls(actions: seq<Action>): seq<Action> {
    if actions == [] then []
    else
      var a := actions[|actions| - 1];
      Calls(actions[..|actions| - 1]) + if a.CallDone? || a.CallWait? then [a] else []
  }

  /** A thread is where its call can be; WaitDone gives up or answers false only when it is cancelled. */
  predicate Follows(t: Thread, call: Action, cancelled: bool) {
    match t
    case Closing(c, _) => call == CallDone(c)
    case Waiting(ch) => call == CallWait(ch.cid)
    case Cancelling(ch) => call == CallWait(ch.cid) && cancelled
    case Returned(c, result) => call == CallWait(c) && (!result ==> cancelled)
  }

  /** Done has been called for c, and Reset has not been called since. */
  predicate DoneSinceReset(actions: seq<Action>, c: Cid) {
    exists k :: 0 <= k < |actions| && actions[k] == CallDone(c) && ResetAll !in actions[k..]
  }

  lemma DoneSinceResetLater(front: seq<Action>, a: Action, c: Cid)
    ensures DoneSinceReset(front + [a], c) <==> a == CallDone(c) || (a != ResetAll && DoneSinceReset(front, c))
  {
    var actions := front + [a];
    if DoneSinceReset(actions, c) && a != CallDone(c) {
      var k :| 0 <= k < |actions| && actions[k] == CallDone(c) && ResetAll !in actions[k..];
      assert actions[k..] == front[k..] + [a];
      assert front[k] == CallDone(c);
    }
    if DoneSinceReset(front, c) && a != ResetAll {
      var k :| 0 <= k < |front| && front[k] == CallDone(c) && ResetAll !in front[k..];
      assert actions[k..] == front[k..] + [a] && actions[k] == CallDone(c);
    }
    if a == CallDone(c) {
      assert actions[|front|] == CallDone(c) && actions[|front|..] == [a];
    }
  }

  ghost predicate AnswersOk(s: Sys, actions: seq<Action>) {
    && |s.threads| == |Calls(actions)|
    && forall i :: 0 <= i < |s.threads| ==> Follows(s.threads[i], Calls(actions)[i], CancelWait(i) in actions)
  }

  lemma StepKeepsAnswers(s: Sys, front: seq<Action>, a: Action)
    requires AnswersOk(s, front) && Step(s, a).Some?
    ensures AnswersOk(Step(s, a).value, front + [a])
  {
    CallsLater(front, a);
    forall i | 0 <= i < |s.threads|
      ensures Follows(Step(s, a).value.threads[i], Calls(front)[i], CancelWait(i) in front + [a])
    {
      ThreadFollows(s, front, a, i);
    }
  }

  lemma CallsLater(front: seq<Action>, a: Action)
    ensures Calls(front + [a]) == Calls(front) + if a.CallDone? || a.CallWait? then [a] else []
  {
    assert (front + [a])[..|front|] == front;
  }

  lemma ThreadFollows(s: Sys, front: seq<Action>, a: Action, i: nat)
    requires AnswersOk(s, front) && Step(s, a).Some? && i < |s.threads|
    ensures Follows(Step(s, a).value.threads[i], Calls(front)[i], CancelWait(i) in front + [a])
  {
    match a
    case CallDone(_) =>
    case CallWait(_) =>
    case CloseNext(_) =>
    case WakeUp(_) =>
    case CancelWait(_) =>
    case CleanUp(_) =>
    case ResetAll =>
  }

  ghost predicate HistoryOk(s: Sys, actions: seq<Action>) {
    && (forall c :: c in s.everDone <==> CallDone(c) in actions)
    && (forall c :: c in s.doneNow <==> DoneSinceReset(actions, c))
  }

  lemma StepKeepsHistory(s: Sys, front: seq<Action>, a: Action)
    requires HistoryOk(s, front) && Step(s, a).Some?
    ensures HistoryOk(Step(s, a).value, front + [a])
  {
    assert forall x :: x in front + [a] <==> x in front || x == a;
    forall c ensures c in Step(s, a).value.doneNow <==> DoneSinceReset(front + [a], c) {
      DoneSinceResetLater(front, a, c);
    }
  }

  /** In every run, Resets included: a thread is where its own call can be, a WaitDone that answers false was
      cancelled, so without cancellation every answer is true; and the sets of done CIDs are those of the calls. */
  lemma {:induction false} AnswersAreTrue(actions: seq<Action>)
    requires Run(START, actions).Some?
    ensures AnswersOk(Run(START, actions).value, actions) && HistoryOk(Run(START, actions).value, actions)
  {
    if actions != [] {
      var front, a := actions[..|actions| - 1], actions[|actions| - 1];
      assert actions == front + [a];
      AnswersAreTrue(front);
      StepKeepsAnswers(Run(START, front).value, front, a);
      StepKeepsHistory(Run(START, front).value, front, a);
    }
  }

  /** At any point of any run WaitDone answers true at once if Done was called for its CID since the last Reset,
      and blocks otherwise. */
  lemma WaitIsExact(actions: seq<Action>, c: Cid)
    requires Run(START, actions).Some?
    ensures var r := Run(START, actions + [CallWait(c)]);
            && r.Some? && r.value.threads != []
            && var t := r.value.threads[|r.value.threads| - 1];
               if DoneSinceReset(actions, c) then t == Returned(c, true) else t.Waiting? && t.ch.cid == c
  {
    assert (actions + [CallWait(c)])[..|actions|] == actions;
    AnswersAreTrue(actions);
    RunsStaySafe(actions);
  }

  // ---- no wake-up is lost ----------------------------------------------------------------------

  ghost predicate Queued(s: Sys, ch: Chan) {
    exists j :: 0 <= j < |s.threads| && s.threads[j].Closing? && ch in s.threads[j].pending
  }

  /** A blocked waiter can still be woken: its channel is registered, closed, or queued for closing. */
  ghost predicate NothingLost(s: Sys) {
    forall i :: 0 <= i < |s.threads| && s.threads[i].Waiting? ==>
                  var ch := s.threads[i].ch; Listed(s, ch) || ch in s.closed || Queued(s, ch)
  }

  lemma QueuedStays(s: Sys, a: Action, ch: Chan)
    requires Safe(s) && Queued(s, ch) && Step(s, a).Some?
    ensures ch in Step(s, a).value.closed || Queued(Step(s, a).value, ch)
  {
    var u := Step(s, a).value;
    var j :| 0 <= j < |s.threads| && s.threads[j].Closing? && ch in s.threads[j].pending;
    if a == CloseNext(j) {
      assert s.threads[j].pending == [s.threads[j].pending[0]] + s.threads[j].pending[1..];
      assert u.threads[j].Closing?;
    } else {
      assert u.threads[j] == s.threads[j];
    }
  }

  lemma ListedStays(s: Sys, a: Action, i: nat)
    requires Safe(s) && Step(s, a).Some? && a != ResetAll
    requires i < |s.threads| && s.threads[i].Waiting? && Listed(s, s.threads[i].ch)
    requires Step(s, a).value.threads[i] == s.threads[i]
    ensures Listed(Step(s, a).value, s.threads[i].ch) || Queued(Step(s, a).value, s.threads[i].ch)
  {
    var u, ch := Step(s, a).value, s.threads[i].ch;
    match a
    case CallDone(c) =>
      if c == ch.cid {
        assert u.threads[|s.threads|] == Closing(c, s.tracker.waiters[c].chans);
      }
    case CleanUp(k) =>
      if s.threads[k].ch.cid == ch.cid {
        WithoutDistinct(s.tracker.waiters[ch.cid].chans, s.threads[k].ch);
      }
    case _ =>
  }

  lemma OthersStay(s: Sys, a: Action, i: nat)
    requires Step(s, a).Some? && i < |s.threads| && i < |Step(s, a).value.threads|
    requires Step(s, a).value.threads[i].Waiting?
    ensures s.threads[i] == Step(s, a).value.threads[i] && s.closed <= Step(s, a).value.closed
  {
  }

  lemma StepLosesNothing(s: Sys, a: Action)
    requires Safe(s) && NothingLost(s) && Step(s, a).Some? && a != ResetAll
    ensures NothingLost(Step(s, a).value)
  {
    var u := Step(s, a).value;
    forall i | 0 <= i < |u.threads| && u.threads[i].Waiting?
      ensures var ch := u.threads[i].ch; Listed(u, ch) || ch in u.closed || Queued(u, ch)
    {
      if i < |s.threads| {
        OthersStay(s, a, i);
        if Queued(s, s.threads[i].ch) {
          QueuedStays(s, a, s.threads[i].ch);
        } else if Listed(s, s.threads[i].ch) {
          ListedStays(s, a, i);
        }
      }
    }
  }

  /** In every run without Reset, a waiter blocked on a completed CID has its channel closed or queued for
      closing. */
  lemma {:induction false} NoWakeUpIsLost(actions: seq<Action>)
    requires Run(START, actions).Some? && ResetAll !in actions
    ensures var s := Run(START, actions).value;
            && Safe(s) && NothingLost(s)
            && forall i :: 0 <= i < |s.threads| && s.threads[i].Waiting? && s.threads[i].ch.cid in s.everDone ==>
                 s.threads[i].ch in s.closed || Queued(s, s.threads[i].ch)
    ensures var s := Run(START, actions).value; s.doneNow == s.everDone
  {
    RunsStaySafe(actions);
    if actions != [] {
      var front := actions[..|actions| - 1];
      RunsStaySafe(front);
      assert forall a :: a in front ==> a in actions;
      assert actions[|actions| - 1] in actions;
      NoWakeUpIsLost(front);
      StepLosesNothing(Run(START, front).value, actions[|actions| - 1]);
    }
  }

  /** A queued channel is closed by as many closes as its place in the queue, after which its waiter can
      return. */
  lemma {:induction false} QueuedWaiterIsWoken(s: Sys, i: nat, j: nat, k: nat)
    requires i < |s.threads| && s.threads[i].Waiting?
    requires j < |s.threads| && s.threads[j].Closing? && k < |s.threads[j].pending|
    requires s.threads[j].pending[k] == s.threads[i].ch
    ensures var actions := seq(k + 1, _ => CloseNext(j)) + [WakeUp(i)];
            && Run(s, actions).Some?
            && Run(s, actions).value.threads[i] == Returned(s.threads[i].ch.cid, true)
  {
    ClosesInOrder(s, i, j, k + 1);
    var closes := seq(k + 1, _ => CloseNext(j));
    assert (closes + [WakeUp(i)])[..k + 1] == closes;
  }

  lemma {:induction false} ClosesInOrder(s: Sys, i: nat, j: nat, n: nat)
    requires i < |s.threads| && s.threads[i].Waiting?
    requires j < |s.threads| && s.threads[j].Closing? && n <= |s.threads[j].pending|
    ensures var r := Run(s, seq(n, _ => CloseNext(j)));
            && r.Some? && |r.value.threads| == |s.threads| && r.value.threads[i] == s.threads[i]
            && r.value.threads[j] == Closing(s.threads[j].cid, s.threads[j].pending[n..])
            && forall k :: 0 <= k < n ==> s.threads[j].pending[k] in r.value.closed
  {
    if n > 0 {
      ClosesInOrder(s, i, j, n - 1);
      assert seq(n, _ => CloseNext(j))[..n - 1] == seq(n - 1, _ => CloseNext(j));
    }
  }

  // ---- what Reset does to waiters --------------------------------------------------------------

  /** Reset loses a wake-up exactly when some thread is blocked on a registered channel. */
  lemma ResetLosesRegisteredWaiters(s: Sys)
    requires Safe(s) && NothingLost(s)
    ensures NothingLost(Step(s, ResetAll).value) <==>
            forall i :: 0 <= i < |s.threads| && s.threads[i].Waiting? ==> !Listed(s, s.threads[i].ch)
  {
  }

  /** A thread in WaitDone that nothing will ever wake. */
  ghost predicate Lost(s: Sys, i: nat) {
    && i < |s.threads| && s.threads[i].Waiting?
    && !Listed(s, s.threads[i].ch) && s.threads[i].ch !in s.closed && !Queued(s, s.threads[i].ch)
  }

  lemma StepKeepsLost(s: Sys, a: Action, i: nat)
    requires Safe(s) && Lost(s, i) && Step(s, a).Some?
    ensures Lost(Step(s, a).value, i) || a == CancelWait(i)
  {
    var u, ch := Step(s, a).value, s.threads[i].ch;
    if a != CancelWait(i) {
      assert u.threads[i] == s.threads[i];
      forall j | 0 <= j < |u.threads| && u.threads[j].Closing? ensures ch !in u.threads[j].pending {
        if j < |s.threads| {
          assert s.threads[j].Closing?;
          assert ch !in s.threads[j].pending;
        } else if a.CallDone? {
          assert a.cid == ch.cid ==> !(ch.cid in s.tracker.waiters && ch in s.tracker.waiters[ch.cid].chans);
        }
      }
      match a
      case CleanUp(k) =>
        var x := s.threads[k].ch;
        if x.cid in s.tracker.waiters {
          WithoutDistinct(s.tracker.waiters[x.cid].chans, x);
        }
      case _ =>
    }
  }

  /** The waiters a Reset loses stay blocked, whatever happens, until their context is cancelled: calling
      Done for their CID no longer helps. */
  lemma {:induction false} LostStaysLost(s: Sys, actions: seq<Action>, i: nat)
    requires Safe(s) && Lost(s, i) && Run(s, actions).Some? && CancelWait(i) !in actions
    ensures Safe(Run(s, actions).value) && Lost(Run(s, actions).value, i)
  {
    if actions != [] {
      var front, a := actions[..|actions| - 1], actions[|actions| - 1];
      assert forall x :: x in front ==> x in actions;
      assert a in actions;
      LostStaysLost(s, front, i);
      var u := Run(s, front).value;
      StepKeepsLost(u, a, i);
      StepKeepsLists(u, a);
      StepKeepsQueues(u, a);
      StepKeepsResults(u, a);
    }
  }

  /** Whatever happens, thread i stays in WaitDone until its own context is cancelled. */
  ghost predicate StaysBlocked(s: Sys, i: nat) {
    forall actions :: Run(s, actions).Some? && CancelWait(i) !in actions ==> StillWaits(Run(s, actions).value, i)
  }

  predicate StillWaits(s: Sys, i: nat) {
    i < |s.threads| && s.threads[i].Waiting?
  }

  lemma ResetLosesListed(s: Sys, i: nat)
    requires Safe(s) && StillWaits(s, i) && Listed(s, s.threads[i].ch)
    ensures Safe(Step(s, ResetAll).value) && Lost(Step(s, ResetAll).value, i)
  {
    var u, ch := Step(s, ResetAll).value, s.threads[i].ch;
    StepKeepsLists(s, ResetAll);
    StepKeepsQueues(s, ResetAll);
    StepKeepsResults(s, ResetAll);
    forall j | 0 <= j < |u.threads| && u.threads[j].Closing? ensures ch !in u.threads[j].pending {
      assert QueueOk(s, s.threads[j]);
    }
  }

  lemma ClosedIsWoken(s: Sys, i: nat)
    requires StillWaits(s, i) && s.threads[i].ch in s.closed
    ensures !StaysBlocked(s, i)
  {
    assert [WakeUp(i)][..0] == [];
    assert Run(s, [WakeUp(i)]) == Step(s, WakeUp(i));
    assert !StillWaits(Run(s, [WakeUp(i)]).value, i);
  }

  lemma QueuedIsWoken(s: Sys, i: nat)
    requires StillWaits(s, i) && Queued(s, s.threads[i].ch)
    ensures !StaysBlocked(s, i)
  {
    var ch := s.threads[i].ch;
    var j :| 0 <= j < |s.threads| && s.threads[j].Closing? && ch in s.threads[j].pending;
    var k :| 0 <= k < |s.threads[j].pending| && s.threads[j].pending[k] == ch;
    QueuedWaiterIsWoken(s, i, j, k);
    var actions := seq(k + 1, _ => CloseNext(j)) + [WakeUp(i)];
    assert CancelWait(i) !in actions;
    assert !StillWaits(Run(s, actions).value, i);
  }

  lemma OthersAreWoken(s: Sys, i: nat)
    requires NothingLost(s) && StillWaits(s, i) && !Listed(s, s.threads[i].ch)
    ensures !StaysBlocked(Step(s, ResetAll).value, i)
  {
    var u, ch := Step(s, ResetAll).value, s.threads[i].ch;
    if ch in s.closed {
      ClosedIsWoken(u, i);
    } else {
      var j :| 0 <= j < |s.threads| && s.threads[j].Closing? && ch in s.threads[j].pending;
      assert u.threads[j] == s.threads[j];
      QueuedIsWoken(u, i);
    }
  }

  /** Of the threads blocked when Reset is called, exactly those whose channel is registered at that moment are
      stranded; each of the others can still be woken. */
  lemma ResetStrandsRegistered(s: Sys, i: nat)
    requires Safe(s) && NothingLost(s) && StillWaits(s, i)
    ensures StaysBlocked(Step(s, ResetAll).value, i) <==> Listed(s, s.threads[i].ch)
  {
    var u := Step(s, ResetAll).value;
    if Listed(s, s.threads[i].ch) {
      ResetLosesListed(s, i);
      forall actions | Run(u, actions).Some? && CancelWait(i) !in actions ensures StillWaits(Run(u, actions).value, i) {
        LostStaysLost(u, actions, i);
      }
    } else {
      OthersAreWoken(s, i);
    }
  }

  /** Such a thread exists after a wait, a Reset, and a Done for the CID it waits for. */
  lemma LostIsReachable(c: Cid)
    ensures Run(START, [CallWait(c), ResetAll, CallDone(c)]).Some?
    ensures var s := Run(START, [CallWait(c), ResetAll, CallDone(c)]).value; Lost(s, 0) && c in DoneCids(s.tracker)
  {
    var actions := [CallWait(c), ResetAll, CallDone(c)];
    assert actions[..2] == [CallWait(c), ResetAll] && actions[..2][..1] == [CallWait(c)] && [CallWait(c)][..0] == [];
    var s1 := Step(START, CallWait(c)).value;
    assert s1.threads == [Waiting(Chan(0, c))];
    assert Run(START, [CallWait(c)]) == Some(s1);
    assert Run(START, actions[..2]) == Step(s1, ResetAll);
    assert Run(START, actions) == Step(Step(s1, ResetAll).value, CallDone(c));
  }
}
