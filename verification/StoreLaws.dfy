/** What the operations of the store do to the tables, row by row and field by field
    (internal/protocol/store/metadata.go). Blocks and links are filed under NewCidV1 of a protobuf node for a
    version 0 identifier (internal/protocol/encoding/encoding.go:47-52), and under their own otherwise. */
module StoreLaws {
  import opened Wrappers
  import opened Cids
  import opened ContentTables
  import opened PinTheorems
  import opened PinRuns

  /** The identifier that c is filed under, with its codec. */
  function Filed(c: Cid): Cid {
    if c.V0? then V1(0x70, c.hash) else c
  }

  // ---- one pin, row by row ---------------------------------------------------------------------

  /** The block table after a pin, with every field: its own row, the rows that were there, and empty rows for
      the children that had none. */
  lemma PinRows(t: Tables, b: PinnedBlock, c: Cid)
    requires Pin(t, b).Some?
    ensures var u, was, n := Pin(t, b).value.blocks, t.blocks, Filed(b.cid);
            && (c in u <==> c in was || c == n || exists l :: l in b.links && Filed(l) == c)
            && (c == n && c in was ==>
                  u[c] == BlockInfo(b.size, was[c].last, true, if b.unixfs.Some? then b.unixfs else was[c].unixfs))
            && (c == n && c !in was ==> u[c] == BlockInfo(b.size, None, true, b.unixfs))
            && (c != n && c in was ==> u[c] == was[c])
            && (c != n && c in u && c !in was ==> u[c] == BlockInfo(0, None, false, None))
  {
    var links := NormalizeAll(b.links);
    forall l | l in b.links && Filed(l) == c ensures c in Elems(Uniq(links)) {
      var i :| 0 <= i < |b.links| && b.links[i] == l;
      assert links[i] == c;
    }
    if c in Uniq(links) {
      var i :| 0 <= i < |links| && links[i] == c;
      assert b.links[i] in b.links && Filed(b.links[i]) == c;
    }
  }

  /** The links of a block as they are stored: its links under their filed identifiers, none twice, in the order
      of their first occurrences. */
  ghost predicate StoredLinks(links: seq<Cid>, stored: seq<Cid>) {
    && Distinct(stored)
    && (forall d :: d in stored <==> exists l :: l in links && Filed(l) == d)
    && (forall i, j, k :: 0 <= i < j < |stored| && 0 <= k < |links| && Filed(links[k]) == stored[j] ==>
          exists m :: 0 <= m < k && Filed(links[m]) == stored[i])
  }

  /** Where the j-th element of the list without repetitions occurs, the elements before it have occurred. */
  lemma {:induction false} UniqKeepsOrder(s: seq<Cid>, i: nat, j: nat, k: nat)
    requires i < j < |Uniq(s)| && k < |s| && s[k] == Uniq(s)[j]
    ensures Uniq(s)[i] in s[..k]
  {
    var front := s[..|s| - 1];
    if j < |Uniq(front)| {
      if k < |front| {
        UniqKeepsOrder(front, i, j, k);
        assert front[..k] == s[..k];
      } else {
        assert Uniq(front)[i] in Uniq(front);
        var m :| 0 <= m < |front| && front[m] == Uniq(front)[i];
        assert s[..k][m] == Uniq(s)[i];
      }
    } else {
      assert Uniq(front)[i] in front;
      assert k == |front|;
    }
  }

  lemma PreparedLinksAreStored(b: PinnedBlock)
    ensures StoredLinks(b.links, Prepare(b).links)
  {
    var all, stored := NormalizeAll(b.links), Prepare(b).links;
    UniqIsDistinct(all);
    forall d ensures d in stored <==> exists l :: l in b.links && Filed(l) == d {
      StoredLinkIsLink(b, d);
    }
    forall i, j, k | 0 <= i < j < |stored| && 0 <= k < |b.links| && Filed(b.links[k]) == stored[j]
      ensures exists m :: 0 <= m < k && Filed(b.links[m]) == stored[i]
    {
      UniqKeepsOrder(all, i, j, k);
      var m :| 0 <= m < k && all[..k][m] == stored[i];
      assert Filed(b.links[m]) == stored[i];
    }
  }

  lemma StoredLinkIsLink(b: PinnedBlock, d: Cid)
    ensures d in Prepare(b).links <==> exists l :: l in b.links && Filed(l) == d
  {
    var all := NormalizeAll(b.links);
    if d in all {
      var i :| 0 <= i < |all| && all[i] == d;
      assert b.links[i] in b.links && Filed(b.links[i]) == d;
    }
    forall l | l in b.links && Filed(l) == d ensures d in all {
      var i :| 0 <= i < |b.links| && b.links[i] == l;
      assert all[i] == d;
    }
  }

  /** The link table after a pin, when it holds no orphaned row: one new row for each stored link of the block,
      numbered in order, and nothing else. */
  lemma PinLinkRows(t: Tables, b: PinnedBlock)
    requires NoOrphans(t)
    ensures Pin(t, b).Some?
    ensures exists stored :: StoredLinks(b.links, stored) &&
              forall l :: l in Pin(t, b).value.links <==>
                            l in t.links || exists i :: 0 <= i < |stored| && l == Link(Some(Filed(b.cid)), stored[i], i)
  {
    var p := Prepare(b);
    PreparedLinksAreStored(b);
    AddLinksWithoutOrphans(t.links, p, |p.links|);
  }

  // ---- uploads ---------------------------------------------------------------------------------

  /** A pinned block is ready under its version 1 identifier with its own size, and no row appears under a
      version 0 identifier. */
  lemma PinFilesVersion1(t: Tables, b: PinnedBlock)
    requires Pin(t, b).Some?
    ensures var u, n := Pin(t, b).value.blocks, Filed(b.cid);
            n in u && u[n].ready && u[n].size == b.size && forall c :: c in u && c.V0? ==> c in t.blocks
  {
    PinRows(t, b, Filed(b.cid));
    forall c | c in Pin(t, b).value.blocks && c.V0? ensures c in t.blocks {
      PinRows(t, b, c);
    }
  }

  /** A batch ends with the pin of its last block. */
  lemma BatchEndsWithPin(t: Tables, bs: seq<PinnedBlock>)
    requires BatchPin(t, bs).Some? && bs != []
    ensures var front := BatchPin(t, bs[..|bs| - 1]);
            front.Some? && BatchPin(t, bs) == Pin(front.value, bs[|bs| - 1])
  {
    BatchIsSequence(t, bs);
    BatchIsSequence(t, bs[..|bs| - 1]);
  }

  /** No later block of the batch is filed under the same identifier. */
  ghost predicate LastOfItsCid(bs: seq<PinnedBlock>, i: nat)
    requires i < |bs|
  {
    forall j :: i < j < |bs| ==> Filed(bs[j].cid) != Filed(bs[i].cid)
  }

  lemma LastOfFront(bs: seq<PinnedBlock>, i: nat)
    requires i < |bs| - 1 && LastOfItsCid(bs, i)
    ensures LastOfItsCid(bs[..|bs| - 1], i) && Filed(bs[|bs| - 1].cid) != Filed(bs[i].cid)
  {
  }

  /** The same for a whole batch: of the blocks that are filed under the same identifier the last leaves its
      size. */
  lemma {:induction false} BatchFilesVersion1(t: Tables, bs: seq<PinnedBlock>, i: nat)
    requires BatchPin(t, bs).Some? && i < |bs| && LastOfItsCid(bs, i)
    ensures var u, n := BatchPin(t, bs).value.blocks, Filed(bs[i].cid); n in u && u[n].ready && u[n].size == bs[i].size
  {
    var front, last := bs[..|bs| - 1], bs[|bs| - 1];
    BatchEndsWithPin(t, bs);
    if i < |front| {
      LastOfFront(bs, i);
      BatchFilesVersion1(t, front, i);
      OtherRowStays(BatchPin(t, front).value, last, Filed(bs[i].cid));
    } else {
      PinFilesVersion1(BatchPin(t, front).value, last);
    }
  }

  lemma OtherRowStays(t: Tables, b: PinnedBlock, c: Cid)
    requires Pin(t, b).Some? && c in t.blocks && c != Filed(b.cid)
    ensures c in Pin(t, b).value.blocks && Pin(t, b).value.blocks[c] == t.blocks[c]
  {
    PinRows(t, b, c);
  }

  /** No row appears under a version 0 identifier. */
  lemma {:induction false} NoVersion0Appears(t: Tables, bs: seq<PinnedBlock>)
    requires BatchPin(t, bs).Some?
    ensures forall c :: c in BatchPin(t, bs).value.blocks && c.V0? ==> c in t.blocks
  {
    if bs == [] {
      BatchIsSequence(t, bs);
    } else {
      var front, last := bs[..|bs| - 1], bs[|bs| - 1];
      BatchEndsWithPin(t, bs);
      NoVersion0Appears(t, front);
      PinFilesVersion1(BatchPin(t, front).value, last);
    }
  }

  // ---- the other operations --------------------------------------------------------------------

  /** Unpinning a block that was pinned for the first time takes the tables back to where they were, except for
      the empty rows of its children. */
  lemma UnpinUndoesPin(t: Tables, b: PinnedBlock)
    requires Consistent(t) && NoOrphans(t) && Filed(b.cid) !in t.blocks
    ensures Pin(t, b).Some?
    ensures var u := Unpin(Pin(t, b).value, b.cid);
            && u.links == t.links
            && (forall c :: c in u.blocks <==>
                  c in t.blocks || (c != Filed(b.cid) && exists l :: l in b.links && Filed(l) == c))
            && (forall c :: c in u.blocks ==>
                  u.blocks[c] == if c in t.blocks then t.blocks[c] else BlockInfo(0, None, false, None))
  {
    PinLinkRows(t, b);
    var v := Pin(t, b).value;
    var u := Unpin(v, b.cid);
    forall c
      ensures c in u.blocks <==> c in t.blocks || (c != Filed(b.cid) && exists l :: l in b.links && Filed(l) == c)
      ensures c in u.blocks ==>
                u.blocks[c] == if c in t.blocks then t.blocks[c] else BlockInfo(0, None, false, None)
    {
      PinRows(t, b, c);
    }
    assert forall l :: l in t.links ==> l in u.links;
    assert forall l :: l in u.links ==> l in t.links;
  }

  /** What survives an unpin: every other row, and every link row that does not name the block. So the block is
      neither due nor anybody's child afterwards, and nothing else about the two listings changes; doing it again
      changes nothing. */
  lemma UnpinRows(t: Tables, c: Cid, d: Cid, l: Link, since: int)
    ensures var u, n := Unpin(t, c), Filed(c);
            && (d in u.blocks <==> d in t.blocks && d != n) && (d in u.blocks ==> u.blocks[d] == t.blocks[d])
            && (l in u.links <==> l in t.links && l.child != n && l.parent != Some(n))
            && Stale(u, since) == Stale(t, since) - {n}
            && (l in ReadyLinksFrom(u, d) <==> l in ReadyLinksFrom(t, d) && l.child != n && d != n)
            && Unpin(u, c) == u
  {
    var u := Unpin(t, c);
    assert Unpin(u, c).blocks == u.blocks && Unpin(u, c).links == u.links;
  }

  /** The flag of the row becomes the argument, and nothing else changes; so a child is listed, and a block is
      due, afterwards exactly if it is ready now and was linked, or not announced since, before. */
  lemma MarkReadyShows(t: Tables, c: Cid, ready: bool, d: Cid, l: Link, since: int)
    requires MarkBlockReady(t, c, ready).Some?
    ensures var u, n := MarkBlockReady(t, c, ready).value, Filed(c);
            && n in t.blocks && u.links == t.links && u.blocks == t.blocks[n := t.blocks[n].(ready := ready)]
            && (d == n ==> (d in Stale(u, since) <==>
                  ready && (t.blocks[n].last == None || t.blocks[n].last.value < since)))
            && (d != n ==> (d in Stale(u, since) <==> d in Stale(t, since)))
            && (l.parent == Some(d) && l.child == n ==> (l in ReadyLinksFrom(u, d) <==> l in t.links && ready))
            && (l.child != n ==> (l in ReadyLinksFrom(u, d) <==> l in ReadyLinksFrom(t, d)))
  {
  }

  /** Only a missing row is an error. */
  lemma MarkReadyFails(t: Tables, c: Cid, ready: bool)
    ensures MarkBlockReady(t, c, ready) == None <==> Filed(c) !in t.blocks
  {
  }

  // ---- oldest first ----------------------------------------------------------------------------

  /** The block is ready, and was never announced or not since the cutoff. */
  predicate IsDue(t: Tables, since: int, c: Cid) {
    c in t.blocks && t.blocks[c].ready && (t.blocks[c].last == None || t.blocks[c].last.value < since)
  }

  /** The blocks that were never announced, then the others by ascending time. */
  ghost predicate NeverThenOldest(t: Tables, cs: seq<Cid>, k: nat)
    requires k <= |cs| && forall c :: c in cs ==> c in t.blocks
  {
    && (forall i :: 0 <= i < k ==> t.blocks[cs[i]].last == None)
    && (forall i :: k <= i < |cs| ==> t.blocks[cs[i]].last.Some?)
    && (forall i, j :: k <= i < j < |cs| ==> t.blocks[cs[i]].last.value <= t.blocks[cs[j]].last.value)
  }

  /** A due block that is left out was announced, and not before any listed one. */
  predicate NotBefore(t: Tables, cs: seq<Cid>, k: nat, d: Cid)
    requires k <= |cs| && (forall c :: c in cs ==> c in t.blocks) && d in t.blocks
    requires NeverThenOldest(t, cs, k)
  {
    if t.blocks[d].last == None then k == |cs|
    else forall i :: k <= i < |cs| ==> t.blocks[cs[i]].last.value <= t.blocks[d].last.value
  }

  /** What a query for due blocks lists, in plain comparisons of times: due blocks only, those that were never
      announced first and the others oldest first, and nothing older is left out. Without a limit, or below it,
      nothing is left out at all. */
  lemma DueInPlainTimes(t: Tables, since: int, limit: int, cs: seq<Cid>) returns (k: nat)
    requires ListsOldest(t, since, limit, cs)
    ensures forall c :: c in cs ==> IsDue(t, since, c)
    ensures k <= |cs| && NeverThenOldest(t, cs, k)
    ensures forall d :: IsDue(t, since, d) && d !in cs ==> NotBefore(t, cs, k, d)
    ensures limit >= 0 ==> |cs| <= limit
    ensures limit < 0 || |cs| < limit ==> forall d :: IsDue(t, since, d) ==> d in cs
  {
    assert forall c :: c in Stale(t, since) <==> IsDue(t, since, c);
    k := NeverAnnounced(t, cs);
    forall d | IsDue(t, since, d) && d !in cs ensures NotBefore(t, cs, k, d) {
      if k < |cs| {
        assert cs[k] in cs && NoLater(AnnouncedAt(t, cs[k]), AnnouncedAt(t, d));
      }
      forall i | k <= i < |cs| ensures t.blocks[d].last.Some? && t.blocks[cs[i]].last.value <= t.blocks[d].last.value {
        assert cs[i] in cs && NoLater(AnnouncedAt(t, cs[i]), AnnouncedAt(t, d));
      }
    }
    if limit < 0 || |cs| < limit {
      AllListed(t, since, cs);
    }
  }

  /** How many of the listed blocks were never announced. */
  lemma NeverAnnounced(t: Tables, cs: seq<Cid>) returns (k: nat)
    requires forall c :: c in cs ==> c in t.blocks
    requires forall i, j :: 0 <= i < j < |cs| ==> NoLater(AnnouncedAt(t, cs[i]), AnnouncedAt(t, cs[j]))
    ensures k <= |cs| && NeverThenOldest(t, cs, k)
  {
    k := 0;
    while k < |cs| && t.blocks[cs[k]].last == None
      invariant k <= |cs| && forall i :: 0 <= i < k ==> t.blocks[cs[i]].last == None
    {
      k := k + 1;
    }
    forall i, j | 0 <= i < j < |cs| && t.blocks[cs[i]].last.Some?
      ensures t.blocks[cs[j]].last.Some? && t.blocks[cs[i]].last.value <= t.blocks[cs[j]].last.value
    {
      assert NoLater(AnnouncedAt(t, cs[i]), AnnouncedAt(t, cs[j]));
    }
  }

  lemma AllListed(t: Tables, since: int, cs: seq<Cid>)
    requires Distinct(cs) && Elems(cs) <= Stale(t, since) && |cs| == |Stale(t, since)|
    ensures forall d :: d in Stale(t, since) ==> d in cs
  {
    DistinctSize(cs);
    SubsetOfSameSize(Elems(cs), Stale(t, since));
  }

  // ---- runs ------------------------------------------------------------------------------------

  /** No row of either table names a version 0 identifier. */
  ghost predicate NoVersion0(t: Tables) {
    && (forall c :: c in t.blocks ==> !c.V0?)
    && (forall l :: l in t.links ==> !l.child.V0? && (l.parent.Some? ==> !l.parent.value.V0?))
  }

  lemma {:induction false} AddLinksFiled(t: Tables, p: PinnedBlock, n: nat)
    requires NoVersion0(t) && n <= |p.links| && !p.cid.V0? && forall c :: c in p.links ==> !c.V0?
    requires AddLinks(t.links, p.cid, p.links, n).Some?
    ensures NoVersion0(t.(links := AddLinks(t.links, p.cid, p.links, n).value))
  {
    if n > 0 {
      AddLinksFiled(t, p, n - 1);
    }
  }

  lemma PinKeepsNoVersion0(t: Tables, b: PinnedBlock)
    requires NoVersion0(t) && Pin(t, b).Some?
    ensures NoVersion0(Pin(t, b).value)
  {
    var p := Prepare(b);
    PinFilesVersion1(t, b);
    PreparedLinksAreStored(b);
    AddLinksFiled(t, p, |p.links|);
  }

  lemma {:induction false} BatchKeepsNoVersion0(t: Tables, bs: seq<PinnedBlock>)
    requires NoVersion0(t) && BatchPin(t, bs).Some?
    ensures NoVersion0(BatchPin(t, bs).value)
  {
    if bs == [] {
      BatchIsSequence(t, bs);
    } else {
      BatchEndsWithPin(t, bs);
      BatchKeepsNoVersion0(t, bs[..|bs| - 1]);
      PinKeepsNoVersion0(BatchPin(t, bs[..|bs| - 1]).value, bs[|bs| - 1]);
    }
  }

  /** In every run from an empty database each block and each end of each link is filed under a version 1
      identifier or the undefined one. */
  lemma {:induction false} RunsFileVersion1(ops: seq<Op>)
    ensures NoVersion0(Run(Tables(map[], {}), ops))
  {
    if ops != [] {
      var t, op := Run(Tables(map[], {}), ops[..|ops| - 1]), ops[|ops| - 1];
      RunsFileVersion1(ops[..|ops| - 1]);
      match op
      case OpPin(b) => if Pin(t, b).Some? { PinKeepsNoVersion0(t, b); }
      case OpBatchPin(bs) => if BatchPin(t, bs).Some? { BatchKeepsNoVersion0(t, bs); }
      case OpUnpin(_) =>
      case OpMarkReady(_, _) =>
      case OpAnnounce(cs, now) => AnnouncementIsExact(t, cs, now);
    }
  }

  /** What the last operation of a run leaves behind: a pinned block is ready with its size, and so is every block of
      a content-addressed batch; an unpinned one has no row; a marked one has the flag; announced ones have the
      time, or some of them was not ready and nothing has changed. */
  predicate Shows(t: Tables, u: Tables, op: Op) {
    match op
    case OpPin(b) => Filed(b.cid) in u.blocks && u.blocks[Filed(b.cid)].ready && u.blocks[Filed(b.cid)].size == b.size
    case OpBatchPin(bs) => forall b :: b in bs ==> Filed(b.cid) in u.blocks && u.blocks[Filed(b.cid)].ready
    case OpUnpin(c) =>
      Filed(c) !in u.blocks && forall l :: l in u.links ==> l.child != Filed(c) && l.parent != Some(Filed(c))
    case OpMarkReady(c, ready) => if Filed(c) in t.blocks then ReadyIs(u, Filed(c), ready) else u == t
    case OpAnnounce(cs, now) =>
      if forall c :: c in cs ==> ReadyIs(t, Filed(c), true)
      then forall c :: c in cs ==> TimeIs(u, Filed(c), now)
      else u == t
  }

  predicate ReadyIs(t: Tables, c: Cid, ready: bool) {
    c in t.blocks && t.blocks[c].ready == ready
  }

  predicate TimeIs(t: Tables, c: Cid, now: int) {
    c in t.blocks && t.blocks[c].last == Some(now)
  }

  /** In every run from an empty database. */
  lemma LastOperationShows(ops: seq<Op>)
    requires ops != [] && (ops[|ops| - 1].OpBatchPin? ==> ContentAddressed(ops[|ops| - 1].batch))
    ensures Shows(Run(Tables(map[], {}), ops[..|ops| - 1]), Run(Tables(map[], {}), ops), ops[|ops| - 1])
  {
    var front, op := ops[..|ops| - 1], ops[|ops| - 1];
    RunsStayConsistent(front, if op.OpBatchPin? then op.batch else []);
    StepShows(Run(Tables(map[], {}), front), op);
  }

  lemma StepShows(t: Tables, op: Op)
    requires Consistent(t) && NoOrphans(t) && (op.OpBatchPin? ==> BatchPin(t, op.batch).Some?)
    ensures Shows(t, Step(t, op), op)
  {
    match op
    case OpPin(b) =>
      PinLinkRows(t, b);
      PinFilesVersion1(t, b);
    case OpBatchPin(bs) => BatchPinKeeps(t, bs);
    case OpUnpin(c) => UnpinShows(t, c);
    case OpMarkReady(c, ready) => MarkShows(t, c, ready);
    case OpAnnounce(cs, now) => AnnouncementShows(t, cs, now);
  }

  lemma UnpinShows(t: Tables, c: Cid)
    ensures Shows(t, Unpin(t, c), OpUnpin(c))
  {
  }

  lemma MarkShows(t: Tables, c: Cid, ready: bool)
    ensures Shows(t, OrElse(t, MarkBlockReady(t, c, ready)), OpMarkReady(c, ready))
  {
  }

  lemma AnnouncementShows(t: Tables, cs: seq<Cid>, now: int)
    ensures var u := OrElse(t, SetLastAnnouncement(t, cs, now));
            if forall c :: c in cs ==> ReadyIs(t, Filed(c), true)
            then forall c :: c in cs ==> TimeIs(u, Filed(c), now)
            else u == t
  {
    AnnouncementIsExact(t, cs, now);
    assert forall c :: ReadyIs(t, c, true) <==> IsReady(t, c);
    forall c | c in cs ensures Filed(c) in NormalizeAll(cs) {
      var i :| 0 <= i < |cs| && cs[i] == c;
      assert NormalizeAll(cs)[i] == Filed(c);
    }
  }
}
