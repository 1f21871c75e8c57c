/** A file upload as three threads: the background producer (internal/protocol/block_processor_file.go),
    the consumer calling Next, and Release, around the streaming blockstore
    (internal/protocol/streaming_blockstore.go). A step is one critical section, one channel operation or
    one flag. */
module FilePipeline {
  import opened Wrappers
  import opened Cids

  /** Keys of the pending map: puts use the binary CID, MarkBlockProcessed a text CID built from the hash. */
  datatype Key = Binary(cid: Cid) | Text(hash: nat)

  datatype NextPc =
    | Idle               // not inside Next
    | FoundOpen          // Next saw the processor open
    | FoundLive          // ... and its context not cancelled, and is about to start the producer
    | MarkedStarted      // ... and has set `started`
    | Selecting          // waits for a block, an error or cancellation
    | Received(cid: Cid) // has taken a block off the channel
    | Unlisted(cid: Cid) // has decremented the pending count, the processed count comes next
    | StreamEnded        // the channel is closed and empty

  datatype ProducerPc =
    | NotSpawned
    | Working            // between two puts
    | EnteredPut(cid: Cid)
    | SawOpen(cid: Cid)  // Put saw the store open
    | SawOpen2(cid: Cid) // so did putBlock
    | Admitted(cid: Cid) // processing was not done either
    | Sending(cid: Cid)  // the block is pending; blocked in the select
    | Failing            // processFile returned an error
    | AllPut             // the file is in the store
    | Completed
    | SeenNotDone        // ProcessingDone saw it was the first call
    | DoneSet            // processingDone is set, the channel comes next
    | StreamClosed
    | Returning          // the wait group comes next
    | Exited

  /** How far Release has come; it goes through its stages one by one. */
  type Stage = nat

  const NOT_RELEASING: Stage := 0
  const BASE_CLOSED: Stage := 1        // closed is set
  const CANCELLED: Stage := 2          // the processing context is cancelled
  const WAITED: Stage := 3             // no background goroutine is left
  const ERRORS_CLOSED: Stage := 4
  const STORE_FLAGGED: Stage := 5      // the store is closed
  const STORE_CANCELLED: Stage := 6
  const CHANNEL_CLOSED: Stage := 7
  const PENDING_CLEARED: Stage := 8
  const PROCESSED_CLEARED: Stage := 9
  const RELEASED: Stage := 10

  datatype Flags = Flags(started: bool, closed: bool, cancelled: bool, goroutines: nat, errors: nat, errorsClosed: bool,
                         processingDone: bool, storeClosed: bool, storeCancelled: bool)

  /** The delivery channel; sent, received and closes are its history. */
  datatype Channel = Channel(capacity: nat, buffer: seq<Cid>, closed: bool, closes: nat, sent: seq<Cid>,
                             received: seq<Cid>)

  /** The store's maps and counters; accepted lists the newly accepted puts. */
  datatype Books = Books(pending: set<Key>, processed: set<Key>, pendingCount: int, processedCount: int,
                         accepted: seq<Cid>)

  /** A send on a closed channel panics; the last two flags record it. */
  datatype Sys = Sys(next: NextPc, producer: ProducerPc, release: Stage, script: seq<Cid>,
                     flags: Flags, channel: Channel, books: Books, sendOnClosed: bool, errorOnClosed: bool)

  const MAX_ERRORS: nat := 10

  /** A processor for a file whose blocks are put in the order of the script. */
  function Start(capacity: nat, script: seq<Cid>): Sys {
    Sys(Idle, NotSpawned, NOT_RELEASING, script, Flags(false, false, false, 0, 0, false, false, false, false),
        Channel(capacity, [], false, 0, [], []), Books({}, {}, 0, 0, []), false, false)
  }

  datatype Action =
    // the consumer
    | CallNext | NextProceeds | Receive | SeeEnd | SeeCancel | SeeError
    // the producer
    | ProducerProceeds | Send | StoreGone | ContextGone | ReadFails
    // Release, and the caller's context
    | BeginRelease | ReleaseProceeds
    | ParentCancels

  /** closeDeliveryChannel, guarded by a Once. */
  function CloseChannel(c: Channel): Channel {
    if c.closes > 0 then c else c.(closed := true, closes := c.closes + 1)
  }

  /** The deferred wg.Done; it also runs when the goroutine panics. */
  function LeaveGroup(f: Flags): Flags {
    f.(goroutines := if f.goroutines > 0 then f.goroutines - 1 else 0)
  }

  function TakeError(f: Flags): Flags {
    f.(errors := if f.errors > 0 then f.errors - 1 else 0)
  }

  /** Next goes on to its next critical section. */
  function NextProceed(s: Sys): Sys {
    match s.next
    case FoundOpen => s.(next := if s.flags.cancelled then Idle else if s.flags.started then Selecting else FoundLive)
    case FoundLive => s.(flags := s.flags.(started := true), next := MarkedStarted)
    case MarkedStarted =>
      s.(flags := s.flags.(goroutines := s.flags.goroutines + 1), producer := Working, next := Selecting)
    case Received(c) => s.(books := TakePending(s.books, c), next := Unlisted(c))
    case Unlisted(c) => s.(books := AddProcessed(s.books, c), next := Idle)
    case StreamEnded => s.(flags := TakeError(s.flags), next := Idle)
    case Idle => s
    case Selecting => s
  }

  function ReceiveBlock(s: Sys): Sys
    requires s.channel.buffer != []
  {
    var c := s.channel;
    s.(channel := c.(buffer := c.buffer[1..], received := c.received + [c.buffer[0]]), next := Received(c.buffer[0]))
  }

  function NextStep(s: Sys, a: Action): Option<Sys> {
    match a
    case CallNext => if s.next.Idle? then Some(if s.flags.closed then s else s.(next := FoundOpen)) else None
    case NextProceeds => if s.next.Idle? || s.next.Selecting? then None else Some(NextProceed(s))
    case Receive => if s.next.Selecting? && s.channel.buffer != [] then Some(ReceiveBlock(s)) else None
    case SeeEnd =>
      if s.next.Selecting? && s.channel.closed && s.channel.buffer == [] then Some(s.(next := StreamEnded)) else None
    case SeeCancel => if s.next.Selecting? && s.flags.cancelled then Some(s.(next := Idle)) else None
    case SeeError =>
      if s.next.Selecting? && (s.flags.errors > 0 || s.flags.errorsClosed)
      then Some(s.(flags := TakeError(s.flags), next := Idle)) else None
    case _ => None
  }

  /** The first critical section of MarkBlockProcessed. */
  function TakePending(b: Books, c: Cid): Books {
    b.(pending := b.pending - {Text(MultihashOf(c))}, pendingCount := b.pendingCount - 1)
  }

  /** The second one. */
  function AddProcessed(b: Books, c: Cid): Books {
    b.(processed := b.processed + {Text(MultihashOf(c))}, processedCount := b.processedCount + 1)
  }

  function AddPending(b: Books, c: Cid): Books {
    b.(pending := b.pending + {Binary(c)}, pendingCount := b.pendingCount + 1, accepted := b.accepted + [c])
  }

  /** The producer goes on to its next critical section. */
  function ProducerProceed(s: Sys): Sys {
    if Putting(s.producer) then PutProceed(s) else FinishProceed(s)
  }

  predicate Putting(p: ProducerPc) {
    p.Working? || p.EnteredPut? || p.SawOpen? || p.SawOpen2? || p.Admitted?
  }

  /** Within a put, or between two. */
  function PutProceed(s: Sys): Sys {
    match s.producer
    case Working =>
      if s.script == []
      then s.(producer := AllPut) else s.(script := s.script[1..], producer := EnteredPut(s.script[0]))
    case EnteredPut(c) => s.(producer := if s.flags.storeClosed then Failing else SawOpen(c))
    case SawOpen(c) => s.(producer := if s.flags.storeClosed then Failing else SawOpen2(c))
    case SawOpen2(c) => s.(producer := if s.flags.processingDone then Failing else Admitted(c))
    case Admitted(c) =>
      if Binary(c) in s.books.pending then s.(producer := Working)
      else s.(books := AddPending(s.books, c), producer := Sending(c))
    case _ => s
  }

  /** After the last put, or after a failed one. */
  function FinishProceed(s: Sys): Sys {
    s.(flags := FinishFlags(s.producer, s.flags), producer := FinishPc(s.producer, s.flags),
       channel := if s.producer.DoneSet? then CloseChannel(s.channel) else s.channel,
       errorOnClosed := s.errorOnClosed || (s.producer.Failing? && s.flags.errorsClosed))
  }

  function FinishPc(p: ProducerPc, f: Flags): ProducerPc {
    match p
    case Failing => if f.errorsClosed then Exited else Returning
    case AllPut => Completed
    case Completed => if f.processingDone then StreamClosed else SeenNotDone
    case SeenNotDone => DoneSet
    case DoneSet => StreamClosed
    case StreamClosed => Returning
    case Returning => Exited
    case _ => p
  }

  function FinishFlags(p: ProducerPc, f: Flags): Flags {
    match p
    case Failing =>
      if f.errorsClosed then LeaveGroup(f) else f.(errors := if f.errors < MAX_ERRORS then f.errors + 1 else f.errors)
    case SeenNotDone => f.(processingDone := true)
    case Returning => LeaveGroup(f)
    case _ => f
  }

  function SendBlock(s: Sys): Sys
    requires s.producer.Sending?
  {
    if s.channel.closed then s.(sendOnClosed := true, flags := LeaveGroup(s.flags), producer := Exited)
    else
      var c := s.channel;
      s.(channel := c.(buffer := c.buffer + [s.producer.cid], sent := c.sent + [s.producer.cid]), producer := Working)
  }

  function ProducerStep(s: Sys, a: Action): Option<Sys> {
    match a
    case ProducerProceeds =>
      if s.producer.Sending? || s.producer.NotSpawned? || s.producer.Exited? then None else Some(ProducerProceed(s))
    case ReadFails => if s.producer.Working? then Some(s.(producer := Failing)) else None
    case Send =>
      if s.producer.Sending? && (s.channel.closed || |s.channel.buffer| < s.channel.capacity)
      then Some(SendBlock(s)) else None
    case StoreGone => if s.producer.Sending? && s.flags.storeCancelled then Some(s.(producer := Failing)) else None
    case ContextGone => if s.producer.Sending? && s.flags.cancelled then Some(s.(producer := Failing)) else None
    case _ => None
  }

  function ReleaseStep(s: Sys, a: Action): Option<Sys> {
    var f := s.flags;
    if a == BeginRelease then
      if s.release == NOT_RELEASING then Some(s.(flags := f.(closed := true), release := BASE_CLOSED)) else None
    else if s.release == BASE_CLOSED then Some(s.(flags := f.(cancelled := true), release := CANCELLED))
    else if s.release == CANCELLED then if f.goroutines == 0 then Some(s.(release := WAITED)) else None
    else if s.release == WAITED then Some(s.(flags := f.(errorsClosed := true), release := ERRORS_CLOSED))
    else if s.release == ERRORS_CLOSED then Some(s.(flags := f.(storeClosed := true), release := STORE_FLAGGED))
    else if s.release == STORE_FLAGGED then Some(s.(flags := f.(storeCancelled := true), release := STORE_CANCELLED))
    else if s.release == STORE_CANCELLED then Some(s.(channel := CloseChannel(s.channel), release := CHANNEL_CLOSED))
    else if s.release == CHANNEL_CLOSED then Some(s.(books := s.books.(pending := {}), release := PENDING_CLEARED))
    else if s.release == PENDING_CLEARED then Some(s.(books := s.books.(processed := {}), release := PROCESSED_CLEARED))
    else if s.release == PROCESSED_CLEARED then
      Some(s.(books := s.books.(pendingCount := 0, processedCount := 0), release := RELEASED))
    else None
  }

  /** None: the action is not possible now. */
  function Step(s: Sys, a: Action): Option<Sys> {
    match a
    case ParentCancels => Some(s.(flags := s.flags.(cancelled := true)))
    case BeginRelease => ReleaseStep(s, a)
    case ReleaseProceeds => ReleaseStep(s, a)
    case ProducerProceeds => ProducerStep(s, a)
    case Send => ProducerStep(s, a)
    case StoreGone => ProducerStep(s, a)
    case ContextGone => ProducerStep(s, a)
    case ReadFails => ProducerStep(s, a)
    case _ => NextStep(s, a)
  }

  function Run(s: Sys, actions: seq<Action>): Option<Sys> {
    if actions == [] then Some(s)
    else
      match Run(s, actions[..|actions| - 1])
      case None => None
      case Some(u) => Step(u, actions[|actions| - 1])
  }

  // ---- what every run keeps --------------------------------------------------------------------

  predicate Spawned(s: Sys) {
    s.producer != NotSpawned
  }

  /** Next has seen the processor open and live, or is about to, and has not started the producer yet. */
  predicate StartWindow(s: Sys) {
    (s.next.FoundLive? || s.next.MarkedStarted?) || (s.next == FoundOpen && !s.flags.cancelled && !s.flags.started)
  }

  /** Flags that follow from where the threads are. */
  predicate ConsumerFlags(s: Sys) {
    && (s.flags.started <==> s.next == MarkedStarted || Spawned(s))
    && ((s.next.FoundLive? || s.next.MarkedStarted?) ==> !Spawned(s))
    && ((s.next.Selecting? || s.next.StreamEnded?) || s.next.Received? || s.next.Unlisted? ==> Spawned(s))
    && s.flags.goroutines == (if Spawned(s) && s.producer != Exited then 1 else 0)
  }

  predicate ReleaseFlags(s: Sys) {
    && (s.flags.closed <==> s.release >= BASE_CLOSED) && (s.release >= CANCELLED ==> s.flags.cancelled)
    && (s.flags.errorsClosed <==> s.release >= ERRORS_CLOSED) && (s.flags.storeClosed <==> s.release >= STORE_FLAGGED)
    && (s.flags.storeCancelled <==> s.release >= STORE_CANCELLED)
  }

  predicate ChannelFlags(s: Sys) {
    && s.channel.closes == (if s.channel.closed then 1 else 0) && (s.release >= CHANNEL_CLOSED ==> s.channel.closed)
    && (!Spawned(s) ==> s.books.pending == {} && !s.flags.processingDone)
    && (!Spawned(s) && s.channel.closed ==> s.release >= CHANNEL_CLOSED)
  }

  predicate Lifecycle(s: Sys) {
    ConsumerFlags(s) && ReleaseFlags(s) && ChannelFlags(s)
  }

  /** The producer puts no more blocks. */
  predicate Ending(p: ProducerPc) {
    p.StreamClosed? || p.Returning? || p.Exited?
  }

  /** What Release's order buys: nobody starts the producer behind its back, so once it has waited the
      producer is gone, and the channels are closed only after the last send. */
  predicate Orderly(s: Sys) {
    && (s.flags.closed && !Spawned(s) ==> s.next == Idle || (s.next == FoundOpen && s.flags.cancelled))
    && (s.release >= WAITED ==> (s.producer.NotSpawned? || s.producer.Exited?))
    && (s.channel.closed ==> s.producer.NotSpawned? || Ending(s.producer))
    && (s.flags.processingDone ==> s.producer.DoneSet? || Ending(s.producer))
    && !s.sendOnClosed && !s.errorOnClosed
  }

  /** The consumer and the producer leave alone what Release writes before it reaches the channel. */
  predicate SameRelease(s: Sys, u: Sys) {
    && u.release == s.release && u.flags.closed == s.flags.closed && u.flags.cancelled == s.flags.cancelled
    && u.flags.errorsClosed == s.flags.errorsClosed && u.flags.storeClosed == s.flags.storeClosed
    && u.flags.storeCancelled == s.flags.storeCancelled
  }

  /** Release leaves the other threads alone. */
  predicate SameThreads(s: Sys, u: Sys) {
    && u.next == s.next && u.producer == s.producer && u.script == s.script
    && u.flags.started == s.flags.started && u.flags.goroutines == s.flags.goroutines
    && u.flags.processingDone == s.flags.processingDone
    && u.sendOnClosed == s.sendOnClosed && u.errorOnClosed == s.errorOnClosed
  }

  predicate NextTouches(s: Sys, u: Sys) {
    && SameRelease(s, u) && u.channel.closed == s.channel.closed && u.channel.closes == s.channel.closes
    && u.flags.processingDone == s.flags.processingDone && u.books.pending <= s.books.pending
    && u.sendOnClosed == s.sendOnClosed && u.errorOnClosed == s.errorOnClosed
    && (u.producer == s.producer || (s.next == MarkedStarted && u.producer == Working))
  }

  lemma NextProceedFrame(s: Sys)
    ensures NextTouches(s, NextProceed(s))
  {
    match s.next
    case FoundOpen =>
    case FoundLive =>
    case MarkedStarted =>
    case Received(c) =>
    case Unlisted(c) =>
    case StreamEnded =>
    case Idle =>
    case Selecting =>
  }

  lemma NextFrame(s: Sys, a: Action)
    requires NextStep(s, a).Some?
    ensures NextTouches(s, NextStep(s, a).value)
  {
    match a
    case NextProceeds => NextProceedFrame(s);
    case CallNext =>
    case Receive =>
    case SeeEnd =>
    case SeeCancel =>
    case SeeError =>
  }

  predicate ProducerTouches(s: Sys, u: Sys) {
    SameRelease(s, u) && u.next == s.next && u.flags.started == s.flags.started && Spawned(u) && Spawned(s)
  }

  /** A put changes what is pending and where the producer is, and no flag. */
  lemma PutFrame(s: Sys)
    requires Putting(s.producer)
    ensures var u := PutProceed(s);
            && u.flags == s.flags && u.channel == s.channel && u.next == s.next && u.release == s.release && Spawned(u)
            && u.sendOnClosed == s.sendOnClosed && u.errorOnClosed == s.errorOnClosed
  {
  }

  lemma FinishFrame(s: Sys)
    requires Spawned(s)
    ensures ProducerTouches(s, FinishProceed(s))
  {
    FinishFlagsFrame(s.producer, s.flags);
  }

  lemma FinishFlagsFrame(p: ProducerPc, f: Flags)
    ensures var g := FinishFlags(p, f);
            && g.started == f.started && g.closed == f.closed && g.cancelled == f.cancelled
            && g.errorsClosed == f.errorsClosed && g.storeClosed == f.storeClosed
            && g.storeCancelled == f.storeCancelled
  {
    match p
    case Failing =>
    case SeenNotDone =>
    case Returning =>
    case _ =>
  }

  lemma ReleaseFrame(s: Sys, a: Action)
    requires ReleaseStep(s, a).Some?
    ensures SameThreads(s, ReleaseStep(s, a).value)
  {
  }

  lemma NextKeepsLifecycle(s: Sys, a: Action)
    requires Lifecycle(s) && NextStep(s, a).Some?
    ensures Lifecycle(NextStep(s, a).value)
  {
    NextFrame(s, a);
    NextKeepsConsumerFlags(s, a);
  }

  lemma NextKeepsConsumerFlags(s: Sys, a: Action)
    requires ConsumerFlags(s) && NextStep(s, a).Some?
    ensures ConsumerFlags(NextStep(s, a).value)
  {
  }

  lemma NextKeepsOrder(s: Sys, a: Action)
    requires Lifecycle(s) && Orderly(s) && NextStep(s, a).Some?
    ensures Orderly(NextStep(s, a).value)
  {
  }

  lemma PutKeepsLifecycle(s: Sys)
    requires Lifecycle(s) && Putting(s.producer)
    ensures Lifecycle(PutProceed(s))
  {
    PutFrame(s);
  }

  lemma FinishKeepsLifecycle(s: Sys)
    requires Lifecycle(s) && !Putting(s.producer) && Spawned(s) && s.producer != Exited
    ensures Lifecycle(FinishProceed(s))
  {
    FinishFrame(s);
  }

  lemma ProducerKeepsLifecycle(s: Sys, a: Action)
    requires Lifecycle(s) && ProducerStep(s, a).Some?
    ensures Lifecycle(ProducerStep(s, a).value)
  {
    if a == ProducerProceeds {
      if Putting(s.producer) {
        PutKeepsLifecycle(s);
      } else {
        FinishKeepsLifecycle(s);
      }
    }
  }

  lemma ProducerKeepsOrder(s: Sys, a: Action)
    requires Lifecycle(s) && Orderly(s) && ProducerStep(s, a).Some?
    ensures Orderly(ProducerStep(s, a).value)
  {
  }

  lemma ReleaseKeepsLifecycle(s: Sys, a: Action)
    requires Lifecycle(s) && ReleaseStep(s, a).Some?
    ensures Lifecycle(ReleaseStep(s, a).value)
  {
    ReleaseFrame(s, a);
    ReleaseKeepsFlags(s, a);
    ReleaseKeepsChannel(s, a);
  }

  lemma ReleaseKeepsFlags(s: Sys, a: Action)
    requires ReleaseFlags(s) && ReleaseStep(s, a).Some?
    ensures ReleaseFlags(ReleaseStep(s, a).value)
  {
  }

  lemma ReleaseKeepsChannel(s: Sys, a: Action)
    requires ChannelFlags(s) && ReleaseStep(s, a).Some?
    ensures ChannelFlags(ReleaseStep(s, a).value)
  {
  }

  lemma ReleaseKeepsOrder(s: Sys, a: Action)
    requires Lifecycle(s) && Orderly(s) && ReleaseStep(s, a).Some? && (a == BeginRelease ==> !StartWindow(s))
    ensures Orderly(ReleaseStep(s, a).value)
  {
    ReleaseFrame(s, a);
  }

  lemma StepKeepsLifecycle(s: Sys, a: Action)
    requires Lifecycle(s) && Step(s, a).Some?
    ensures Lifecycle(Step(s, a).value)
  {
    if Step(s, a) == NextStep(s, a) {
      NextKeepsLifecycle(s, a);
    } else if Step(s, a) == ProducerStep(s, a) {
      ProducerKeepsLifecycle(s, a);
    } else if Step(s, a) == ReleaseStep(s, a) {
      ReleaseKeepsLifecycle(s, a);
    }
  }

  lemma StepKeepsOrder(s: Sys, a: Action)
    requires Lifecycle(s) && Orderly(s) && Step(s, a).Some? && (a == BeginRelease ==> !StartWindow(s))
    ensures Orderly(Step(s, a).value)
  {
    if Step(s, a) == NextStep(s, a) {
      NextKeepsOrder(s, a);
    } else if Step(s, a) == ProducerStep(s, a) {
      ProducerKeepsOrder(s, a);
    } else if Step(s, a) == ReleaseStep(s, a) {
      ReleaseKeepsOrder(s, a);
    }
  }

  /** Release was called outside the window. */
  ghost predicate ReleasedOutsideWindow(s: Sys, actions: seq<Action>) {
    forall k :: 0 <= k < |actions| && actions[k] == BeginRelease && Run(s, actions[..k]).Some? ==>
                  !StartWindow(Run(s, actions[..k]).value)
  }

  lemma {:induction false} RunsKeepOrder(s: Sys, actions: seq<Action>)
    requires Lifecycle(s) && Orderly(s) && Run(s, actions).Some? && ReleasedOutsideWindow(s, actions)
    ensures Lifecycle(Run(s, actions).value) && Orderly(Run(s, actions).value)
  {
    if actions != [] {
      var front, a := actions[..|actions| - 1], actions[|actions| - 1];
      assert forall k :: 0 <= k < |front| ==> front[..k] == actions[..k];
      RunsKeepOrder(s, front);
      assert a == BeginRelease ==> actions[|front|] == BeginRelease;
      StepKeepsLifecycle(Run(s, front).value, a);
      StepKeepsOrder(Run(s, front).value, a);
    }
  }

  /** In every interleaving in which Release is not called while a Next is about to start the producer, the
      delivery channel is closed at most once and nothing is ever sent on a closed channel. */
  lemma NoSendAfterClose(capacity: nat, script: seq<Cid>, actions: seq<Action>)
    requires Run(Start(capacity, script), actions).Some? && ReleasedOutsideWindow(Start(capacity, script), actions)
    ensures var s := Run(Start(capacity, script), actions).value;
            s.channel.closes <= 1 && !s.sendOnClosed && !s.errorOnClosed
  {
    RunsKeepOrder(Start(capacity, script), actions);
  }

  // ---- what some run reaches -------------------------------------------------------------------

  ghost predicate Reaches(s: Sys, t: Sys) {
    exists actions :: Run(s, actions) == Some(t)
  }

  lemma ReachesSelf(s: Sys)
    ensures Reaches(s, s)
  {
    assert Run(s, []) == Some(s);
  }

  lemma ReachesStep(s: Sys, t: Sys, a: Action)
    requires Reaches(s, t) && Step(t, a).Some?
    ensures Reaches(s, Step(t, a).value)
  {
    var actions :| Run(s, actions) == Some(t);
    assert (actions + [a])[..|actions|] == actions;
    assert Run(s, actions + [a]) == Step(t, a);
  }
}
