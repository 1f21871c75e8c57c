/** Announcing CIDs (internal/protocol/ipfs/provide.go): the worker group of the basic DHT provider, one
    reprovide cycle, and the draining of a backlog over many cycles. */
module Reprovide {
  import opened Wrappers
  import opened Cids
  import opened ContentTables
  import opened PinRuns
  import opened Metadata

  /** Why ProvideMany failed; only the first form carries the keys that failed. */
  datatype ProvideError = ProvideManyError(failedKeys: seq<nat>) | OtherError

  datatype Delay = ErrorSleep | EmptySleep | BacklogSleep | IntervalSleep

  const MINUTE: int := 60

  // ---- basicDHTProvider.ProvideMany: a bounded group of workers --------------------------------

  /** The keys are launched in order, at most `limit` at a time; workers finish in any order and append
      the key they failed to provide to a shared list. */
  datatype Group = Group(started: nat, running: set<nat>, failed: seq<nat>)

  datatype GroupAction = Launch | Finish(worker: nat)

  function WorkerLimit(provideWorkers: int, keys: seq<nat>): nat {
    if provideWorkers <= 0 then |keys| else provideWorkers
  }

  /** provided[w] is the outcome of the call for key w. None: the action is not possible now. */
  function GroupStep(keys: seq<nat>, limit: nat, provided: seq<bool>, g: Group, a: GroupAction): Option<Group>
    requires |provided| == |keys|
  {
    match a
    case Launch =>
      if g.started < |keys| && |g.running| < limit
      then Some(g.(started := g.started + 1, running := g.running + {g.started})) else None
    case Finish(w) =>
      if w in g.running && w < |keys|
      then Some(g.(running := g.running - {w}, failed := if provided[w] then g.failed else g.failed + [keys[w]]))
      else None
  }

  function GroupRun(keys: seq<nat>, limit: nat, provided: seq<bool>, actions: seq<GroupAction>): Option<Group>
    requires |provided| == |keys|
  {
    if actions == [] then Some(Group(0, {}, []))
    else
      match GroupRun(keys, limit, provided, actions[..|actions| - 1])
      case None => None
      case Some(g) => GroupStep(keys, limit, provided, g, actions[|actions| - 1])
  }

  predicate GroupDone(keys: seq<nat>, g: Group) {
    g.started == |keys| && g.running == {}
  }

  /** How many of the first n workers have finished and failed to provide key k. */
  function FailureCount(keys: seq<nat>, provided: seq<bool>, running: set<nat>, n: nat, k: nat): nat
    requires |provided| == |keys| && n <= |keys|
  {
    if n == 0 then 0
    else FailureCount(keys, provided, running, n - 1, k) +
         if !provided[n - 1] && n - 1 !in running && keys[n - 1] == k then 1 else 0
  }

  /** Workers outside the first n do not matter. */
  lemma {:induction false} SameCount(keys: seq<nat>, provided: seq<bool>, r: set<nat>, s: set<nat>, n: nat, k: nat)
    requires |provided| == |keys| && n <= |keys| && forall i :: 0 <= i < n ==> (i in r <==> i in s)
    ensures FailureCount(keys, provided, r, n, k) == FailureCount(keys, provided, s, n, k)
  {
    if n > 0 {
      SameCount(keys, provided, r, s, n - 1, k);
    }
  }

  lemma {:induction false} FinishCounts(keys: seq<nat>, provided: seq<bool>, running: set<nat>, w: nat, n: nat, k: nat)
    requires |provided| == |keys| && w < n <= |keys| && w in running
    ensures FailureCount(keys, provided, running - {w}, n, k) ==
            FailureCount(keys, provided, running, n, k) + if !provided[w] && keys[w] == k then 1 else 0
  {
    if w == n - 1 {
      SameCount(keys, provided, running - {w}, running, n - 1, k);
    } else {
      FinishCounts(keys, provided, running, w, n - 1, k);
    }
  }

  lemma {:induction false} GroupBounds(keys: seq<nat>, limit: nat, provided: seq<bool>, actions: seq<GroupAction>)
    requires |provided| == |keys| && GroupRun(keys, limit, provided, actions).Some?
    ensures var g := GroupRun(keys, limit, provided, actions).value;
            && |g.running| <= g.started <= |keys| && |g.running| <= limit
            && forall w :: w in g.running ==> w < g.started
  {
    if actions != [] {
      GroupBounds(keys, limit, provided, actions[..|actions| - 1]);
    }
  }

  /** In every run the shared list holds, whatever the finishing order, one copy of each failed call's key. */
  lemma {:induction false} GroupCollectsFailures(keys: seq<nat>, limit: nat, provided: seq<bool>,
                                                 actions: seq<GroupAction>, k: nat)
    requires |provided| == |keys| && GroupRun(keys, limit, provided, actions).Some?
    ensures var g := GroupRun(keys, limit, provided, actions).value;
            && g.started <= |keys|
            && multiset(g.failed)[k] == FailureCount(keys, provided, g.running, g.started, k)
  {
    if actions != [] {
      GroupCollectsFailures(keys, limit, provided, actions[..|actions| - 1], k);
      GroupBounds(keys, limit, provided, actions[..|actions| - 1]);
      StepCollects(keys, limit, provided, GroupRun(keys, limit, provided, actions[..|actions| - 1]).value,
                   actions[|actions| - 1], k);
    }
  }

  lemma StepCollects(keys: seq<nat>, limit: nat, provided: seq<bool>, h: Group, a: GroupAction, k: nat)
    requires |provided| == |keys| && h.started <= |keys| && forall w :: w in h.running ==> w < h.started
    requires multiset(h.failed)[k] == FailureCount(keys, provided, h.running, h.started, k)
    requires GroupStep(keys, limit, provided, h, a).Some?
    ensures var g := GroupStep(keys, limit, provided, h, a).value;
            && g.started <= |keys|
            && multiset(g.failed)[k] == FailureCount(keys, provided, g.running, g.started, k)
  {
    match a
    case Launch =>
      assert h.started !in h.running;
      SameCount(keys, provided, h.running + {h.started}, h.running, h.started, k);
    case Finish(w) =>
      FinishCounts(keys, provided, h.running, w, h.started, k);
  }

  /** The group cannot get stuck before every key was tried: some action is possible, and each action
      takes one of the 2 * |keys| turns there are; a key is launched whenever the number of workers allows it. */
  lemma {:induction false} GroupFinishes(provideWorkers: int, keys: seq<nat>, provided: seq<bool>,
                                         actions: seq<GroupAction>)
    requires |provided| == |keys| && GroupRun(keys, WorkerLimit(provideWorkers, keys), provided, actions).Some?
    ensures var limit := WorkerLimit(provideWorkers, keys);
            var g := GroupRun(keys, limit, provided, actions).value;
            && |actions| + |g.running| == 2 * g.started <= 2 * |keys|
            && (GroupDone(keys, g) || exists a :: GroupStep(keys, limit, provided, g, a).Some?)
            && (provideWorkers > 0 ==> |g.running| <= provideWorkers)
            && (g.started < |keys| && (provideWorkers <= 0 || |g.running| < provideWorkers) ==>
                  GroupStep(keys, limit, provided, g, Launch).Some?)
  {
    var limit := WorkerLimit(provideWorkers, keys);
    GroupBounds(keys, limit, provided, actions);
    if actions != [] {
      GroupFinishes(provideWorkers, keys, provided, actions[..|actions| - 1]);
      GroupBounds(keys, limit, provided, actions[..|actions| - 1]);
    }
    GroupGoesOn(provideWorkers, keys, provided, GroupRun(keys, limit, provided, actions).value);
  }

  /** A worker can finish, or else the next key can be launched. */
  lemma GroupGoesOn(provideWorkers: int, keys: seq<nat>, provided: seq<bool>, g: Group)
    requires |provided| == |keys| && g.started <= |keys| && forall w :: w in g.running ==> w < g.started
    ensures var limit := WorkerLimit(provideWorkers, keys);
            GroupDone(keys, g) || exists a :: GroupStep(keys, limit, provided, g, a).Some?
  {
    var limit := WorkerLimit(provideWorkers, keys);
    if g.running != {} {
      var w :| w in g.running;
      assert GroupStep(keys, limit, provided, g, Finish(w)).Some?;
    } else if g.started < |keys| {
      assert GroupStep(keys, limit, provided, g, Launch).Some?;
    }
  }

  lemma {:induction false} FailureCountPositive(keys: seq<nat>, provided: seq<bool>, n: nat, k: nat)
    requires |provided| == |keys| && n <= |keys|
    ensures FailureCount(keys, provided, {}, n, k) > 0 <==> exists i :: 0 <= i < n && !provided[i] && keys[i] == k
  {
    if n > 0 {
      FailureCountPositive(keys, provided, n - 1, k);
    }
  }

  function BasicOutcome(g: Group): Option<ProvideError> {
    if |g.failed| > 0 then Some(ProvideManyError(g.failed)) else None
  }

  // ---- performProvide --------------------------------------------------------------------------

  function Multihashes(cs: seq<Cid>): (r: seq<nat>)
    ensures |r| == |cs| && forall i :: 0 <= i < |cs| ==> r[i] == MultihashOf(cs[i])
  {
    seq(|cs|, i requires 0 <= i < |cs| => MultihashOf(cs[i]))
  }

  function FailedKeys(cs: seq<Cid>, error: ProvideError): seq<nat> {
    match error
    case ProvideManyError(ks) => ks
    case OtherError => Multihashes(cs)
  }

  /** The CIDs whose multihash did not fail, in order. */
  function Succeeded(cs: seq<Cid>, failed: seq<nat>): seq<Cid> {
    if cs == [] then []
    else
      var c := cs[|cs| - 1];
      Succeeded(cs[..|cs| - 1], failed) + if MultihashOf(c) in failed then [] else [c]
  }

  lemma {:induction false} SucceededMembers(cs: seq<Cid>, failed: seq<nat>, c: Cid)
    ensures c in Succeeded(cs, failed) <==> c in cs && MultihashOf(c) !in failed
  {
    if cs != [] {
      SucceededMembers(cs[..|cs| - 1], failed, c);
      assert cs == cs[..|cs| - 1] + [cs[|cs| - 1]];
    }
  }

  /** The announcement times of the given CIDs are set; nothing else changes. */
  function Marked(t: Tables, cs: seq<Cid>, now: int): Tables {
    t.(blocks := map c | c in t.blocks :: if c in cs then t.blocks[c].(last := Some(now)) else t.blocks[c])
  }

  /** What the cycle marks: everything fetched, or what did not fail. */
  function ToMark(cs: seq<Cid>, outcome: Option<ProvideError>): seq<Cid> {
    if outcome == None then cs else Succeeded(cs, FailedKeys(cs, outcome.value))
  }

  function DelayAfter(cs: seq<Cid>, outcome: Option<ProvideError>, batchSize: int): Delay {
    if cs == [] then EmptySleep
    else if outcome.Some? then ErrorSleep
    else if |cs| >= batchSize then BacklogSleep
    else IntervalSleep
  }

  /** What a cycle marks, by the answer of the provider: everything; what is not among the failed keys; nothing. */
  lemma MarkedByOutcome(cs: seq<Cid>, c: Cid)
    ensures c in ToMark(cs, None) <==> c in cs
    ensures forall ks :: c in ToMark(cs, Some(ProvideManyError(ks))) <==> c in cs && MultihashOf(c) !in ks
    ensures c !in ToMark(cs, Some(OtherError))
  {
    forall ks ensures c in ToMark(cs, Some(ProvideManyError(ks))) <==> c in cs && MultihashOf(c) !in ks {
      SucceededMembers(cs, ks, c);
    }
    SucceededMembers(cs, Multihashes(cs), c);
    if c in cs {
      var i :| 0 <= i < |cs| && cs[i] == c;
      assert Multihashes(cs)[i] == MultihashOf(c);
    }
  }

  lemma OtherErrorMarksNothing(t: Tables, cs: seq<Cid>, now: int)
    ensures Marked(t, ToMark(cs, Some(OtherError)), now) == t
  {
    forall c ensures c !in ToMark(cs, Some(OtherError)) {
      MarkedByOutcome(cs, c);
    }
  }

  ghost predicate AllNormalized(t: Tables) {
    forall c :: c in t.blocks ==> Normalized(c)
  }

  lemma MarkingSucceeds(t: Tables, cs: seq<Cid>, now: int)
    requires AllNormalized(t) && forall c :: c in cs ==> IsReady(t, c)
    ensures SetLastAnnouncement(t, cs, now) == Some(Marked(t, cs, now))
  {
    AnnouncementIsExact(t, cs, now);
    forall c | c in cs ensures NormalizeCid(c) == c { assert c in t.blocks; }
    assert NormalizeAll(cs) == cs;
    assert SetLastAnnouncement(t, cs, now).value.blocks == Marked(t, cs, now).blocks;
  }

  /** The provider is not asked about an empty list. */
  function OutcomeFor(provider: seq<nat> -> Option<ProvideError>, cs: seq<Cid>): Option<ProvideError> {
    if cs == [] then None else provider(Multihashes(cs))
  }

  class Reprovider {
    const store: MetadataStore
    const interval: int
    const batchSize: int

    constructor (store: MetadataStore, interval: int, batchSize: int)
      ensures this.store == store && this.interval == interval && this.batchSize == batchSize
    {
      this.store, this.interval, this.batchSize := store, interval, batchSize;
    }

    /** Nothing is written for an empty list. */
    method MarkAnnounced(cids: seq<Cid>, markTime: int)
      requires store.Valid() && AllNormalized(store.View()) && forall c :: c in cids ==> IsReady(store.View(), c)
      modifies store
      ensures store.Valid() && store.View() == Marked(old(store.View()), cids, markTime)
    {
      MarkingSucceeds(store.View(), cids, markTime);
      if |cids| > 0 {
        var ok := store.SetLastAnnouncement(cids, markTime);
      } else {
        NothingMarked(store.View(), markTime);
      }
    }

    /** After the provider has answered for a list that is not empty. */
    method MarkOutcome(fetched: seq<Cid>, outcome: Option<ProvideError>, markTime: int, writeFails: bool)
      returns (delay: Delay)
      requires store.Valid() && AllNormalized(store.View()) && fetched != []
      requires forall c :: c in fetched ==> IsReady(store.View(), c)
      modifies store
      ensures store.Valid()
      ensures writeFails ==> store.View() == old(store.View()) && delay == ErrorSleep
      ensures outcome.Some? ==> delay == ErrorSleep
      ensures outcome.None? && !writeFails ==> delay == if |fetched| >= batchSize then BacklogSleep else IntervalSleep
      ensures outcome == Some(OtherError) ==> store.View() == old(store.View())
      ensures !writeFails ==> delay == DelayAfter(fetched, outcome, batchSize)
      ensures !writeFails ==> store.View() == Marked(old(store.View()), ToMark(fetched, outcome), markTime)
    {
      OtherErrorMarksNothing(store.View(), fetched, markTime);
      if outcome.Some? {
        var succeeded := Succeeded(fetched, FailedKeys(fetched, outcome.value));
        forall c | c in succeeded ensures IsReady(store.View(), c) {
          SucceededMembers(fetched, FailedKeys(fetched, outcome.value), c);
        }
        if !writeFails {
          MarkAnnounced(succeeded, markTime);
        }
        return ErrorSleep;
      }
      if writeFails {
        return ErrorSleep;
      }
      MarkAnnounced(fetched, markTime);
      return if |fetched| >= batchSize then BacklogSleep else IntervalSleep;
    }

    /** One cycle. The clock readings, the provider and engine failures are parameters; the fetched CIDs
        are reported for the specification. */
    method PerformProvide(now: int, markTime: int, provider: seq<nat> -> Option<ProvideError>,
                          fetchFails: bool, writeFails: bool) returns (delay: Delay, fetched: seq<Cid>)
      requires store.Valid() && AllNormalized(store.View())
      modifies store
      ensures store.Valid()
      ensures fetchFails ==> delay == ErrorSleep && fetched == [] && store.View() == old(store.View())
      ensures !fetchFails ==> ListsOldest(old(store.View()), now - interval - 60, batchSize, fetched)
      ensures !fetchFails && fetched == [] ==> delay == EmptySleep && store.View() == old(store.View())
      ensures fetched != [] && provider(Multihashes(fetched)).Some? ==> delay == ErrorSleep
      ensures fetched != [] && provider(Multihashes(fetched)) == Some(OtherError) ==>
                store.View() == old(store.View())
      ensures !fetchFails && !writeFails ==>
                delay == DelayAfter(fetched, OutcomeFor(provider, fetched), batchSize)
      ensures !fetchFails && !writeFails ==>
                store.View() == Marked(old(store.View()), ToMark(fetched, OutcomeFor(provider, fetched)), markTime)
      ensures writeFails ==> store.View() == old(store.View()) && delay in {ErrorSleep, EmptySleep}
    {
      fetched := [];
      if fetchFails {
        return ErrorSleep, fetched;
      }
      var stats := store.CountPinned(now - interval - MINUTE);
      fetched := FetchDue(now);
      if |fetched| == 0 {
        NothingMarked(store.View(), markTime);
        return EmptySleep, fetched;
      }
      delay := MarkOutcome(fetched, provider(Multihashes(fetched)), markTime, writeFails);
    }

    /** What is due for an announcement. */
    method FetchDue(now: int) returns (fetched: seq<Cid>)
      requires store.Valid()
      ensures ListsOldest(store.View(), now - interval - MINUTE, batchSize, fetched)
      ensures forall c :: c in fetched ==> IsReady(store.View(), c)
    {
      var cids := store.ProvideCIDs(now - interval - MINUTE, batchSize);
      fetched := CidsOfPinned(cids);
      DueIsReady(store.View(), now - interval - MINUTE, batchSize, fetched);
    }
  }

  lemma DueIsReady(t: Tables, since: int, limit: int, cs: seq<Cid>)
    requires ListsOldest(t, since, limit, cs)
    ensures forall c :: c in cs ==> IsReady(t, c)
  {
  }

  lemma NothingMarked(t: Tables, now: int)
    ensures Marked(t, [], now) == t
  {
  }

  // ---- partial failure -------------------------------------------------------------------------

  /** When the group is done, a key is in the shared list exactly if a call for it failed. */
  lemma FailedListExact(keys: seq<nat>, limit: nat, provided: seq<bool>, actions: seq<GroupAction>, k: nat)
    requires |provided| == |keys| && GroupRun(keys, limit, provided, actions).Some?
    requires GroupDone(keys, GroupRun(keys, limit, provided, actions).value)
    ensures k in GroupRun(keys, limit, provided, actions).value.failed <==>
            exists i :: 0 <= i < |keys| && !provided[i] && keys[i] == k
  {
    GroupCollectsFailures(keys, limit, provided, actions, k);
    FailureCountPositive(keys, provided, |keys|, k);
    var g := GroupRun(keys, limit, provided, actions).value;
    assert k in g.failed <==> k in multiset(g.failed);
  }

  lemma ToMarkMembers(fetched: seq<Cid>, g: Group, c: Cid)
    ensures c in ToMark(fetched, BasicOutcome(g)) <==> c in fetched && MultihashOf(c) !in g.failed
  {
    SucceededMembers(fetched, g.failed, c);
  }

  /** For every finishing order of the workers: the cycle marks exactly the fetched CIDs none of whose
      multihash's announcements failed, and every other fetched CID is still due. */
  lemma PartialFailureIsExact(t: Tables, since: int, batchSize: int, fetched: seq<Cid>, limit: nat,
                              provided: seq<bool>, actions: seq<GroupAction>, now: int)
    requires ListsOldest(t, since, batchSize, fetched)
    requires |provided| == |fetched|
    requires GroupRun(Multihashes(fetched), limit, provided, actions).Some?
    requires GroupDone(Multihashes(fetched), GroupRun(Multihashes(fetched), limit, provided, actions).value)
    ensures var g := GroupRun(Multihashes(fetched), limit, provided, actions).value;
            var marked := ToMark(fetched, BasicOutcome(g));
            var u := Marked(t, marked, now);
            && (forall i :: 0 <= i < |fetched| ==>
                  (fetched[i] in marked <==>
                   forall j :: 0 <= j < |fetched| && MultihashOf(fetched[j]) == MultihashOf(fetched[i]) ==>
                                 provided[j]))
            && (forall c :: c in marked ==> AnnouncedAt(u, c) == Some(now))
            && (forall c :: c !in marked ==> AnnouncedAt(u, c) == AnnouncedAt(t, c))
            && (forall c :: c in fetched && c !in marked ==> c in Stale(u, since))
  {
    var keys := Multihashes(fetched);
    var g := GroupRun(keys, limit, provided, actions).value;
    var marked := ToMark(fetched, BasicOutcome(g));
    forall i | 0 <= i < |fetched|
      ensures fetched[i] in marked <==>
              forall j :: 0 <= j < |fetched| && MultihashOf(fetched[j]) == MultihashOf(fetched[i]) ==> provided[j]
    {
      ToMarkMembers(fetched, g, fetched[i]);
      FailedListExact(keys, limit, provided, actions, MultihashOf(fetched[i]));
      assert forall j :: 0 <= j < |fetched| ==> keys[j] == MultihashOf(fetched[j]);
    }
    forall c | c in marked ensures c in t.blocks {
      ToMarkMembers(fetched, g, c);
    }
  }

  // ---- draining a backlog ----------------------------------------------------------------------

  /** A cycle whose provider succeeded: its cutoff, its marking time, what it fetched, its answer. */
  datatype Cycle = Cycle(since: int, now: int, fetched: seq<Cid>, delay: Delay)

  /** The tables after the first n cycles. */
  function TablesAfter(t: Tables, cycles: seq<Cycle>): Tables {
    if cycles == [] then t
    else
      var c := cycles[|cycles| - 1];
      Marked(TablesAfter(t, cycles[..|cycles| - 1]), c.fetched, c.now)
  }

  ghost predicate SuccessfulCycles(t: Tables, cycles: seq<Cycle>, batchSize: int) {
    forall i :: 0 <= i < |cycles| ==>
      && ListsOldest(TablesAfter(t, cycles[..i]), cycles[i].since, batchSize, cycles[i].fetched)
      && cycles[i].delay == DelayAfter(cycles[i].fetched, None, batchSize)
  }

  /** No announcement time lies in [lo, hi), every cutoff is in [lo, hi] and every mark is at hi or later:
      the window does not slide past a marked CID. */
  ghost predicate SteadyWindow(t: Tables, cycles: seq<Cycle>, lo: int, hi: int) {
    && lo <= hi
    && Quiet(t, lo, hi)
    && (forall y :: y in cycles ==> lo <= y.since <= hi && hi <= y.now)
  }

  function AllFetched(cycles: seq<Cycle>): seq<Cid> {
    if cycles == [] then [] else AllFetched(cycles[..|cycles| - 1]) + cycles[|cycles| - 1].fetched
  }

  /** How many of n stale CIDs are announced by k full batches of size b. */
  function Drained(n: nat, b: nat, k: nat): nat {
    if k * b <= n then k * b else n
  }

  ghost predicate Quiet(t: Tables, lo: int, hi: int) {
    forall c :: c in t.blocks && t.blocks[c].last.Some? ==> t.blocks[c].last.value < lo || hi <= t.blocks[c].last.value
  }

  lemma CycleTakesOldest(t: Tables, y: Cycle, batchSize: int, lo: int, hi: int)
    requires lo <= y.since <= hi <= y.now && Quiet(t, lo, hi)
    requires ListsOldest(t, y.since, batchSize, y.fetched)
    ensures Quiet(Marked(t, y.fetched, y.now), lo, hi)
    ensures Elems(y.fetched) <= Stale(t, lo)
    ensures Stale(Marked(t, y.fetched, y.now), lo) == Stale(t, lo) - Elems(y.fetched)
    ensures |y.fetched| == Limited(|Stale(t, lo)|, batchSize)
    ensures forall c, d :: c in y.fetched && d in Stale(t, lo) && d !in y.fetched ==>
                             NoLater(AnnouncedAt(t, c), AnnouncedAt(t, d))
  {
    assert Stale(t, y.since) == Stale(t, lo);
  }

  lemma DrainedStep(n: nat, b: nat, k: nat)
    requires b > 0
    ensures Drained(n, b, k) + Limited(n - Drained(n, b, k), b) == Drained(n, b, k + 1)
    ensures n - Drained(n, b, k) >= b <==> k < n / b
    ensures k > n / b ==> Drained(n, b, k) == n
  {
    var q := n / b;
    DividedBy(n, b);
    OneMoreTimes(k, b);
    if k < q {
      TimesKeepsOrder(k + 1, q, b);
    } else if k > q {
      OneMoreTimes(q, b);
      TimesKeepsOrder(q + 1, k, b);
    }
  }

  lemma DividedBy(n: nat, b: nat)
    requires b > 0
    ensures n / b * b <= n < n / b * b + b
  {
  }

  lemma OneMoreTimes(k: nat, b: nat)
    ensures (k + 1) * b == k * b + b
  {
  }

  lemma TimesKeepsOrder(i: nat, j: nat, b: nat)
    requires i <= j
    ensures i * b <= j * b
  {
    assert j * b == i * b + (j - i) * b;
  }

  lemma {:induction false} DistinctAppend<T(!new)>(xs: seq<T>, ys: seq<T>)
    requires Distinct(xs) && Distinct(ys) && Elems(xs) !! Elems(ys)
    ensures Distinct(xs + ys) && Elems(xs + ys) == Elems(xs) + Elems(ys)
  {
    forall i, j | 0 <= i < j < |xs + ys| ensures (xs + ys)[i] != (xs + ys)[j] {
      if i < |xs| && j >= |xs| {
        assert xs[i] in Elems(xs) && ys[j - |xs|] in Elems(ys);
      }
    }
  }

  /** f lists stale CIDs by age, and nothing due is older than what it lists. */
  ghost predicate OldestFirst(t: Tables, due: set<Cid>, f: seq<Cid>) {
    && (forall i, j :: 0 <= i < j < |f| ==> NoLater(AnnouncedAt(t, f[i]), AnnouncedAt(t, f[j])))
    && (forall c, d :: c in f && d in due && d !in f ==> NoLater(AnnouncedAt(t, c), AnnouncedAt(t, d)))
  }

  lemma OldestFirstAppend(t: Tables, due: set<Cid>, f: seq<Cid>, g: seq<Cid>)
    requires OldestFirst(t, due, f) && OldestFirst(t, due - Elems(f), g)
    requires Elems(g) <= due - Elems(f)
    ensures OldestFirst(t, due, f + g)
  {
    var h := f + g;
    forall i, j | 0 <= i < j < |h| ensures NoLater(AnnouncedAt(t, h[i]), AnnouncedAt(t, h[j])) {
      if i < |f| && j >= |f| {
        assert h[i] in f && h[j] in Elems(g);
      }
    }
    forall c, d | c in h && d in due && d !in h ensures NoLater(AnnouncedAt(t, c), AnnouncedAt(t, d)) {
      assert d !in f && d !in g;
      assert c in f || c in g;
    }
  }

  /** What the cycles so far have announced: f, of what was due at first. */
  ghost predicate DrainState(t: Tables, u: Tables, f: seq<Cid>, lo: int, hi: int) {
    && Distinct(f) && Elems(f) <= Stale(t, lo) && OldestFirst(t, Stale(t, lo), f)
    && Stale(u, lo) == Stale(t, lo) - Elems(f) && Quiet(u, lo, hi)
    && (forall c :: c in Stale(u, lo) ==> AnnouncedAt(u, c) == AnnouncedAt(t, c))
  }

  lemma SameAges(t: Tables, u: Tables, due: set<Cid>, f: seq<Cid>)
    requires OldestFirst(u, due, f) && Elems(f) <= due
    requires forall c :: c in due ==> AnnouncedAt(u, c) == AnnouncedAt(t, c)
    ensures OldestFirst(t, due, f)
  {
    assert forall c :: c in f ==> c in Elems(f);
  }

  lemma LeftOver(due: set<Cid>, f: seq<Cid>)
    requires Distinct(f) && Elems(f) <= due
    ensures |due - Elems(f)| == |due| - |f| && |f| <= |due|
  {
    DistinctSize(f);
    assert due == Elems(f) + (due - Elems(f));
  }

  lemma DrainCounts(t: Tables, u: Tables, f: seq<Cid>, y: Cycle, b: nat, lo: int, hi: int)
    requires b > 0 && DrainState(t, u, f, lo, hi) && lo <= y.since <= hi <= y.now
    requires ListsOldest(u, y.since, b, y.fetched)
    ensures |f| <= |Stale(t, lo)| && |y.fetched| == Limited(|Stale(t, lo)| - |f|, b)
  {
    CycleTakesOldest(u, y, b, lo, hi);
    LeftOver(Stale(t, lo), f);
  }

  lemma DrainOrder(t: Tables, u: Tables, f: seq<Cid>, y: Cycle, b: nat, lo: int, hi: int)
    requires b > 0 && DrainState(t, u, f, lo, hi) && lo <= y.since <= hi <= y.now
    requires ListsOldest(u, y.since, b, y.fetched)
    ensures Elems(y.fetched) <= Stale(u, lo) && OldestFirst(t, Stale(t, lo), f + y.fetched)
  {
    CycleTakesOldest(u, y, b, lo, hi);
    assert OldestFirst(u, Stale(u, lo), y.fetched);
    SameAges(t, u, Stale(u, lo), y.fetched);
    OldestFirstAppend(t, Stale(t, lo), f, y.fetched);
  }

  lemma DrainStep(t: Tables, u: Tables, f: seq<Cid>, y: Cycle, b: nat, lo: int, hi: int)
    requires b > 0 && DrainState(t, u, f, lo, hi) && lo <= y.since <= hi <= y.now
    requires ListsOldest(u, y.since, b, y.fetched)
    ensures DrainState(t, Marked(u, y.fetched, y.now), f + y.fetched, lo, hi)
  {
    CycleTakesOldest(u, y, b, lo, hi);
    DrainOrder(t, u, f, y, b, lo, hi);
    DistinctAppend(f, y.fetched);
  }

  lemma {:induction false} DrainHolds(t: Tables, cycles: seq<Cycle>, b: nat, lo: int, hi: int)
    requires b > 0 && SuccessfulCycles(t, cycles, b) && SteadyWindow(t, cycles, lo, hi)
    ensures DrainState(t, TablesAfter(t, cycles), AllFetched(cycles), lo, hi)
    ensures |AllFetched(cycles)| == Drained(|Stale(t, lo)|, b, |cycles|)
  {
    if cycles == [] {
      assert Elems(AllFetched(cycles)) == {};
    } else {
      var front, y := cycles[..|cycles| - 1], cycles[|cycles| - 1];
      FrontCycles(t, cycles, b, lo, hi);
      DrainHolds(t, front, b, lo, hi);
      DrainStep(t, TablesAfter(t, front), AllFetched(front), y, b, lo, hi);
      DrainCounts(t, TablesAfter(t, front), AllFetched(front), y, b, lo, hi);
      DrainedStep(|Stale(t, lo)|, b, |front|);
    }
  }

  lemma LastBatch(t: Tables, cycles: seq<Cycle>, b: nat, lo: int, hi: int)
    requires b > 0 && SuccessfulCycles(t, cycles, b) && SteadyWindow(t, cycles, lo, hi) && cycles != []
    ensures var y := cycles[|cycles| - 1];
            |y.fetched| <= b && (|y.fetched| == b <==> |cycles| - 1 < |Stale(t, lo)| / b)
  {
    var front, y := cycles[..|cycles| - 1], cycles[|cycles| - 1];
    FrontCycles(t, cycles, b, lo, hi);
    DrainHolds(t, front, b, lo, hi);
    DrainCounts(t, TablesAfter(t, front), AllFetched(front), y, b, lo, hi);
    DrainedStep(|Stale(t, lo)|, b, |front|);
  }

  lemma FullBatches(t: Tables, cycles: seq<Cycle>, b: nat, lo: int, hi: int, k: nat)
    requires b > 0 && SuccessfulCycles(t, cycles, b) && SteadyWindow(t, cycles, lo, hi) && k < |cycles|
    ensures |cycles[k].fetched| <= b
    ensures |cycles[k].fetched| == b <==> k < |Stale(t, lo)| / b
    ensures cycles[k].delay == BacklogSleep <==> k < |Stale(t, lo)| / b
    decreases |cycles|
  {
    if k < |cycles| - 1 {
      FrontCycles(t, cycles, b, lo, hi);
      FullBatches(t, cycles[..|cycles| - 1], b, lo, hi, k);
    } else {
      LastBatch(t, cycles, b, lo, hi);
    }
  }

  lemma FrontSteady(t: Tables, cycles: seq<Cycle>, lo: int, hi: int)
    requires cycles != [] && SteadyWindow(t, cycles, lo, hi)
    ensures SteadyWindow(t, cycles[..|cycles| - 1], lo, hi)
    ensures lo <= cycles[|cycles| - 1].since <= hi <= cycles[|cycles| - 1].now
  {
    assert cycles[|cycles| - 1] in cycles;
  }

  lemma FrontSuccessful(t: Tables, cycles: seq<Cycle>, b: nat)
    requires cycles != [] && SuccessfulCycles(t, cycles, b)
    ensures SuccessfulCycles(t, cycles[..|cycles| - 1], b)
  {
    var front := cycles[..|cycles| - 1];
    forall i | 0 <= i < |front|
      ensures && ListsOldest(TablesAfter(t, front[..i]), front[i].since, b, front[i].fetched)
              && front[i].delay == DelayAfter(front[i].fetched, None, b)
    {
      FrontOf(cycles, i);
    }
  }

  lemma FrontOf(cycles: seq<Cycle>, i: nat)
    requires i + 1 < |cycles|
    ensures cycles[..|cycles| - 1][..i] == cycles[..i] && cycles[..|cycles| - 1][i] == cycles[i]
  {
  }

  lemma FrontCycles(t: Tables, cycles: seq<Cycle>, b: nat, lo: int, hi: int)
    requires cycles != [] && SuccessfulCycles(t, cycles, b) && SteadyWindow(t, cycles, lo, hi)
    ensures var front, y := cycles[..|cycles| - 1], cycles[|cycles| - 1];
            && SuccessfulCycles(t, front, b) && SteadyWindow(t, front, lo, hi)
            && lo <= y.since <= hi <= y.now && ListsOldest(TablesAfter(t, front), y.since, b, y.fetched)
  {
    FrontSteady(t, cycles, lo, hi);
    FrontSuccessful(t, cycles, b);
  }

  /** With a provider that always succeeds and a steady window, n stale CIDs are announced oldest first and
      none twice; the short delay is asked for in exactly the first n / b cycles, and after one more cycle
      nothing is due. */
  lemma BacklogDrains(t: Tables, cycles: seq<Cycle>, b: nat, lo: int, hi: int)
    requires b > 0 && SuccessfulCycles(t, cycles, b) && SteadyWindow(t, cycles, lo, hi)
    ensures var n, f := |Stale(t, lo)|, AllFetched(cycles);
            && Distinct(f) && Elems(f) <= Stale(t, lo) && |f| == Drained(n, b, |cycles|)
            && OldestFirst(t, Stale(t, lo), f)
            && (forall k :: 0 <= k < |cycles| ==> (cycles[k].delay == BacklogSleep <==> k < n / b))
            && (|cycles| > n / b ==> Elems(f) == Stale(t, lo) && Stale(TablesAfter(t, cycles), lo) == {})
  {
    DrainHolds(t, cycles, b, lo, hi);
    if |cycles| > |Stale(t, lo)| / b {
      BacklogIsGone(t, cycles, b, lo, hi);
    }
    forall k | 0 <= k < |cycles| ensures cycles[k].delay == BacklogSleep <==> k < |Stale(t, lo)| / b {
      FullBatches(t, cycles, b, lo, hi, k);
    }
  }

  lemma BacklogIsGone(t: Tables, cycles: seq<Cycle>, b: nat, lo: int, hi: int)
    requires b > 0 && SuccessfulCycles(t, cycles, b) && SteadyWindow(t, cycles, lo, hi)
    requires |cycles| > |Stale(t, lo)| / b
    ensures Elems(AllFetched(cycles)) == Stale(t, lo) && Stale(TablesAfter(t, cycles), lo) == {}
  {
    DrainHolds(t, cycles, b, lo, hi);
    var n, f := |Stale(t, lo)|, AllFetched(cycles);
    DrainedStep(n, b, |cycles|);
    DistinctSize(f);
    SubsetOfSameSize(Elems(f), Stale(t, lo));
  }
}
