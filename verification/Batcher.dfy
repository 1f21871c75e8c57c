/** What the calls of metadataBatcher (internal/protocol/store/batcher.go) do: blocks are buffered and
    written in batches. */
module BatcherSpec {
  import opened Wrappers
  import opened ContentTables
  import opened PinTheorems

  datatype StoreError = StoreError(code: nat)

  /** One call of BatchPin. */
  datatype Write = Write(blocks: seq<PinnedBlock>, ok: bool)

  /** The fields of the batcher, with its history: the blocks it took in and the writes it made. */
  datatype State = State(batchSize: int, batch: seq<PinnedBlock>, err: Option<StoreError>, closed: bool,
                         accepted: seq<PinnedBlock>, writes: seq<Write>)

  function NewState(batchSize: int): State {
    State(batchSize, [], None, false, [], [])
  }

  /** `outcome` is what BatchPin returns if it is called. */
  function FlushLocked(s: State, outcome: Option<StoreError>): (State, Option<StoreError>) {
    if s.batch == [] then (s, None)
    else
      (s.(batch := [], err := if outcome.Some? then outcome else s.err,
          writes := s.writes + [Write(s.batch, outcome.None?)]), outcome)
  }

  function Add(s: State, b: PinnedBlock, outcome: Option<StoreError>): (State, Option<StoreError>) {
    if s.err.Some? then (s, s.err)
    else if s.closed then (s, None)
    else
      var t := s.(batch := s.batch + [b], accepted := s.accepted + [b]);
      if |t.batch| >= t.batchSize then FlushLocked(t, outcome) else (t, None)
  }

  function Flush(s: State, outcome: Option<StoreError>): (State, Option<StoreError>) {
    if s.closed then (s, s.err) else FlushLocked(s, outcome)
  }

  function Close(s: State, outcome: Option<StoreError>): (State, Option<StoreError>) {
    var (t, e) := FlushLocked(s, outcome);
    (t.(closed := true), e)
  }

  // ---- every sequence of calls -----------------------------------------------------------------

  datatype Op =
    | OpAdd(block: PinnedBlock, outcome: Option<StoreError>)
    | OpFlush(outcome: Option<StoreError>)
    | OpClose(outcome: Option<StoreError>)

  function Step(s: State, op: Op): State {
    match op
    case OpAdd(b, o) => Add(s, b, o).0
    case OpFlush(o) => Flush(s, o).0
    case OpClose(o) => Close(s, o).0
  }

  function Run(s: State, ops: seq<Op>): State {
    if ops == [] then s else Step(Run(s, ops[..|ops| - 1]), ops[|ops| - 1])
  }

  function Blocks(writes: seq<Write>): seq<PinnedBlock> {
    if writes == [] then [] else Blocks(writes[..|writes| - 1]) + writes[|writes| - 1].blocks
  }

  /** The accepted blocks are, in order, those of the writes and then the buffer; at most the last write
      failed, and it failed exactly when there is an error, with which the buffer is empty. */
  predicate Accounted(s: State) {
    && s.accepted == Blocks(s.writes) + s.batch
    && (forall i :: 0 <= i < |s.writes| - 1 ==> s.writes[i].ok)
    && (s.err.Some? <==> s.writes != [] && !s.writes[|s.writes| - 1].ok)
    && (s.err.Some? || s.closed ==> s.batch == [])
    && |s.batch| < (if s.batchSize > 1 then s.batchSize else 1)
    && (forall i :: 0 <= i < |s.writes| ==> s.writes[i].blocks != [])
  }

  lemma FlushKeepsAccount(s: State, outcome: Option<StoreError>)
    requires s.accepted == Blocks(s.writes) + s.batch && (s.err.Some? ==> s.batch == [])
    requires forall i :: 0 <= i < |s.writes| - 1 ==> s.writes[i].ok
    requires s.err.Some? <==> s.writes != [] && !s.writes[|s.writes| - 1].ok
    requires forall i :: 0 <= i < |s.writes| ==> s.writes[i].blocks != []
    ensures Accounted(FlushLocked(s, outcome).0) && FlushLocked(s, outcome).0.batch == []
  {
  }

  lemma StepKeepsAccount(s: State, op: Op)
    requires Accounted(s)
    ensures Accounted(Step(s, op)) && Step(s, op).batchSize == s.batchSize
  {
    match op
    case OpAdd(b, o) =>
      if s.err == None && !s.closed {
        var t := s.(batch := s.batch + [b], accepted := s.accepted + [b]);
        assert t.accepted == Blocks(t.writes) + t.batch;
        if |t.batch| >= t.batchSize {
          FlushKeepsAccount(t, o);
        }
      }
    case OpFlush(o) => FlushKeepsAccount(s, o);
    case OpClose(o) => FlushKeepsAccount(s, o);
  }

  /** Over any sequence of Add, Flush and Close no accepted block is lost, repeated or reordered. */
  lemma {:induction false} RunsAreAccounted(batchSize: int, ops: seq<Op>)
    ensures Accounted(Run(NewState(batchSize), ops)) && Run(NewState(batchSize), ops).batchSize == batchSize
  {
    if ops != [] {
      RunsAreAccounted(batchSize, ops[..|ops| - 1]);
      StepKeepsAccount(Run(NewState(batchSize), ops[..|ops| - 1]), ops[|ops| - 1]);
    } else {
      assert Blocks([]) == [];
    }
  }

  /** After a failed write nothing is taken in or written any more, whatever is called; only `closed` may
      change. The same holds after Close. */
  lemma {:induction false} FailureIsFinal(s: State, ops: seq<Op>)
    requires Accounted(s) && (s.err.Some? || s.closed)
    ensures var t := Run(s, ops); t == s.(closed := t.closed) && (s.closed ==> t.closed)
  {
    if ops != [] {
      FailureIsFinal(s, ops[..|ops| - 1]);
    }
  }

  // ---- what the calls return -------------------------------------------------------------------

  /** What BatchPin returns if the call makes a write. */
  function OutcomeOf(op: Op): Option<StoreError> {
    match op
    case OpAdd(_, o) => o
    case OpFlush(o) => o
    case OpClose(o) => o
  }

  /** What the call returns. */
  function Answer(s: State, op: Op): Option<StoreError> {
    match op
    case OpAdd(b, o) => Add(s, b, o).1
    case OpFlush(o) => Flush(s, o).1
    case OpClose(o) => Close(s, o).1
  }

  /** The call makes one write, of these blocks. */
  predicate MakesWrite(s: State, op: Op, blocks: seq<PinnedBlock>) {
    Step(s, op).writes == s.writes + [Write(blocks, OutcomeOf(op) == None)]
  }

  /** What the call has to write, if it writes. */
  function ToWrite(s: State, op: Op): seq<PinnedBlock> {
    if op.OpAdd? then s.batch + [op.block] else s.batch
  }

  /** The call makes a write, and it fails. */
  predicate Fails(s: State, op: Op) {
    MakesWrite(s, op, ToWrite(s, op)) && OutcomeOf(op).Some?
  }

  predicate FailedBefore(s: State) {
    exists i :: 0 <= i < |s.writes| && !s.writes[i].ok
  }

  lemma ErrorIsFailure(s: State)
    requires Accounted(s)
    ensures s.err.Some? <==> FailedBefore(s)
  {
  }

  /** When a call writes, and what: an Add when the buffer has become full, a Flush of an open batcher and a Close
      when there is anything to write; all of the buffer, once, and nothing after a failure. */
  lemma WritesAreExact(s: State, op: Op)
    requires Accounted(s)
    ensures var open := !s.closed && !FailedBefore(s);
            && (MakesWrite(s, op, ToWrite(s, op)) || Step(s, op).writes == s.writes)
            && (Step(s, op).writes != s.writes <==>
                  if op.OpAdd? then open && |s.batch| + 1 >= s.batchSize else s.batch != [])
            && (op.OpAdd? && Step(s, op).writes != s.writes && s.batchSize > 0 ==> |s.batch| + 1 == s.batchSize)
            && Step(s, op).accepted == s.accepted + (if op.OpAdd? && open then [op.block] else [])
            && (Step(s, op).closed <==> s.closed || op.OpClose?)
  {
    ErrorIsFailure(s);
  }

  /** A call returns an error exactly if its own write fails, which is then the error of that write, or if an
      earlier write failed and the call is an Add or a Flush after Close. So Close reports an error exactly if its
      own write fails, and a Flush of an open batcher too. */
  lemma AnswersAreExact(batchSize: int, ops: seq<Op>, op: Op)
    ensures var s := Run(NewState(batchSize), ops);
            && (Answer(s, op).Some? <==>
                  Fails(s, op) || (FailedBefore(s) && (op.OpAdd? || (op.OpFlush? && s.closed))))
            && (Fails(s, op) ==> Answer(s, op) == OutcomeOf(op))
            && (s.closed <==> exists o :: OpClose(o) in ops)
  {
    RunsAreAccounted(batchSize, ops);
    ClosedIsExact(batchSize, ops);
    var s := Run(NewState(batchSize), ops);
    ErrorIsFailure(s);
    WritesAreExact(s, op);
  }

  lemma {:induction false} ClosedIsExact(batchSize: int, ops: seq<Op>)
    ensures Run(NewState(batchSize), ops).closed <==> exists o :: OpClose(o) in ops
  {
    if ops != [] {
      var front, op := ops[..|ops| - 1], ops[|ops| - 1];
      assert ops == front + [op];
      ClosedIsExact(batchSize, front);
    }
  }

  /** The error of a failed write is remembered: whatever is called in between, every later Add and every Flush
      after Close returns that very error. */
  lemma FailureIsRemembered(batchSize: int, ops: seq<Op>, k: nat, op: Op)
    requires k < |ops| && Fails(Run(NewState(batchSize), ops[..k]), ops[k])
    ensures var s := Run(NewState(batchSize), ops);
            && s.err == OutcomeOf(ops[k]) && s.err.Some?
            && (op.OpAdd? || (op.OpFlush? && s.closed) ==> Answer(s, op) == OutcomeOf(ops[k]))
  {
    RunsAreAccounted(batchSize, ops[..k]);
    RunFrom(NewState(batchSize), ops, k);
    ErrorAfterFailure(Run(NewState(batchSize), ops[..k]), ops[k], ops[k + 1..], op);
  }

  lemma ErrorAfterFailure(s: State, failing: Op, more: seq<Op>, op: Op)
    requires Accounted(s) && Fails(s, failing)
    ensures var t := Run(Step(s, failing), more);
            && t.err == OutcomeOf(failing) && t.err.Some?
            && (op.OpAdd? || (op.OpFlush? && t.closed) ==> Answer(t, op) == OutcomeOf(failing))
  {
    FailureIsKept(s, failing);
    StepKeepsAccount(s, failing);
    ErrorStays(Step(s, failing), more);
    var t := Run(Step(s, failing), more);
    if op.OpAdd? || (op.OpFlush? && t.closed) {
      KeptIsReturned(t, op);
    }
  }

  lemma ErrorStays(s: State, ops: seq<Op>)
    requires Accounted(s) && s.err.Some?
    ensures Run(s, ops).err == s.err
  {
    FailureIsFinal(s, ops);
  }

  lemma RunFrom(s: State, ops: seq<Op>, k: nat)
    requires k < |ops|
    ensures Run(s, ops) == Run(Step(Run(s, ops[..k]), ops[k]), ops[k + 1..])
  {
    assert ops == ops[..k + 1] + ops[k + 1..] && ops[..k + 1][..k] == ops[..k];
    RunInTwo(s, ops[..k + 1], ops[k + 1..]);
  }

  lemma FailureIsKept(s: State, op: Op)
    requires Fails(s, op)
    ensures Step(s, op).err == OutcomeOf(op)
  {
  }

  lemma KeptIsReturned(s: State, op: Op)
    requires s.err.Some? && (op.OpAdd? || (op.OpFlush? && s.closed))
    ensures Answer(s, op) == s.err
  {
  }

  lemma {:induction false} RunInTwo(s: State, a: seq<Op>, b: seq<Op>)
    ensures Run(s, a + b) == Run(Run(s, a), b)
  {
    if b == [] {
      assert a + b == a;
    } else {
      assert (a + b)[..|a + b| - 1] == a + b[..|b| - 1];
      RunInTwo(s, a, b[..|b| - 1]);
    }
  }

  // ---- what the writes do to the tables --------------------------------------------------------

  /** The tables after the writes, if each write reports what BatchPin did with it. */
  function TablesAfterWrites(t: Tables, writes: seq<Write>): Tables {
    if writes == [] then t
    else
      var u := TablesAfterWrites(t, writes[..|writes| - 1]);
      var r := BatchPin(u, writes[|writes| - 1].blocks);
      if r.Some? then r.value else u
  }

  ghost predicate FaithfulWrites(t: Tables, writes: seq<Write>) {
    forall i :: 0 <= i < |writes| ==>
                  (writes[i].ok <==> BatchPin(TablesAfterWrites(t, writes[..i]), writes[i].blocks).Some?)
  }

  /** Successful writes together are one upload of their blocks. */
  lemma {:induction false} WritesAreOneBatch(t: Tables, writes: seq<Write>)
    requires FaithfulWrites(t, writes) && forall i :: 0 <= i < |writes| ==> writes[i].ok
    ensures BatchPin(t, Blocks(writes)) == Some(TablesAfterWrites(t, writes))
  {
    if writes == [] {
      BatchIsSequence(t, []);
    } else {
      var front, last := writes[..|writes| - 1], writes[|writes| - 1];
      FaithfulFront(t, writes);
      WritesAreOneBatch(t, front);
      BatchAfterBatch(t, Blocks(front), last.blocks);
    }
  }

  lemma FaithfulFront(t: Tables, writes: seq<Write>)
    requires FaithfulWrites(t, writes) && writes != []
    ensures var front, last := writes[..|writes| - 1], writes[|writes| - 1];
            FaithfulWrites(t, front) && (last.ok <==> BatchPin(TablesAfterWrites(t, front), last.blocks).Some?)
  {
    var front := writes[..|writes| - 1];
    forall i | 0 <= i < |front|
      ensures front[i].ok <==> BatchPin(TablesAfterWrites(t, front[..i]), front[i].blocks).Some?
    {
      assert front[..i] == writes[..i] && front[i] == writes[i];
    }
  }

  lemma BatchAfterBatch(t: Tables, xs: seq<PinnedBlock>, ys: seq<PinnedBlock>)
    requires BatchPin(t, xs).Some?
    ensures BatchPin(t, xs + ys) == BatchPin(BatchPin(t, xs).value, ys)
  {
    BatchIsSequence(t, xs);
    BatchIsSequence(t, xs + ys);
    PinEachAppend(t, xs, ys);
    BatchIsSequence(BatchPin(t, xs).value, ys);
  }

  /** Whatever the calls and the batch size, a batcher that is flushed without an error has done to the
      tables exactly what pinning the accepted blocks one by one would have done. */
  lemma FlushedBatcherPinsEach(t: Tables, batchSize: int, ops: seq<Op>)
    requires var s := Run(NewState(batchSize), ops);
             s.err == None && s.batch == [] && FaithfulWrites(t, s.writes)
    ensures var s := Run(NewState(batchSize), ops);
            PinEach(t, s.accepted) == Some(TablesAfterWrites(t, s.writes))
  {
    var s := Run(NewState(batchSize), ops);
    RunsAreAccounted(batchSize, ops);
    WritesAreOneBatch(t, s.writes);
    BatchIsSequence(t, s.accepted);
    assert s.accepted == Blocks(s.writes);
  }
}

/** The batcher itself. */
module Batcher {
  import opened Wrappers
  import opened ContentTables
  import opened BatcherSpec

  class MetadataBatcher {
    const batchSize: int
    var batch: seq<PinnedBlock>
    var err: Option<StoreError>
    var closed: bool
    ghost var accepted: seq<PinnedBlock>
    ghost var writes: seq<Write>

    ghost function View(): State
      reads this
    {
      State(batchSize, batch, err, closed, accepted, writes)
    }

    /** No accepted block is lost, repeated or reordered. */
    ghost predicate Valid()
      reads this
    {
      Accounted(View())
    }

    constructor (batchSize: int)
      ensures Valid() && View() == NewState(batchSize)
    {
      this.batchSize := batchSize;
      batch, err, closed, accepted, writes := [], None, false, [], [];
      new;
      assert Blocks([]) == [];
    }

    method FlushLocked(outcome: Option<StoreError>) returns (e: Option<StoreError>)
      modifies this
      ensures (View(), e) == BatcherSpec.FlushLocked(old(View()), outcome)
    {
      if |batch| == 0 {
        return None;
      }
      var toFlush := batch;
      batch := [];
      writes := writes + [Write(toFlush, outcome.None?)];
      if outcome.Some? {
        err := outcome;
      }
      return outcome;
    }

    method Add(b: PinnedBlock, outcome: Option<StoreError>) returns (e: Option<StoreError>)
      requires Valid()
      modifies this
      ensures Valid()
      ensures (View(), e) == BatcherSpec.Add(old(View()), b, outcome)
    {
      StepKeepsAccount(View(), OpAdd(b, outcome));
      if err.Some? {
        return err;
      }
      if closed {
        return None;
      }
      batch := batch + [b];
      accepted := accepted + [b];
      if |batch| >= batchSize {
        e := FlushLocked(outcome);
      } else {
        e := None;
      }
    }

    method Flush(outcome: Option<StoreError>) returns (e: Option<StoreError>)
      requires Valid()
      modifies this
      ensures Valid()
      ensures (View(), e) == BatcherSpec.Flush(old(View()), outcome)
    {
      StepKeepsAccount(View(), OpFlush(outcome));
      if closed {
        return err;
      }
      e := FlushLocked(outcome);
    }

    method Close(outcome: Option<StoreError>) returns (e: Option<StoreError>)
      requires Valid()
      modifies this
      ensures Valid()
      ensures (View(), e) == BatcherSpec.Close(old(View()), outcome)
    {
      StepKeepsAccount(View(), OpClose(outcome));
      e := FlushLocked(outcome);
      closed := true;
    }
  }
}
