/** Runs of the store, the children query after an upload, and why orphaned rows are excluded. */
module PinRuns {
  import opened Wrappers
  import opened Cids
  import opened ContentTables
  import opened PinTheorems

  // ---- every run keeps the tables consistent ---------------------------------------------------

  datatype Op =
    | OpPin(block: PinnedBlock)
    | OpBatchPin(batch: seq<PinnedBlock>)
    | OpUnpin(cid: Cid)
    | OpMarkReady(cid: Cid, ready: bool)
    | OpAnnounce(cids: seq<Cid>, now: int)

  /** A failing transaction rolls back. */
  function OrElse(t: Tables, r: Option<Tables>): Tables {
    if r.Some? then r.value else t
  }

  function Step(t: Tables, op: Op): Tables {
    match op
    case OpPin(b) => OrElse(t, Pin(t, b))
    case OpBatchPin(bs) => OrElse(t, BatchPin(t, bs))
    case OpUnpin(c) => Unpin(t, c)
    case OpMarkReady(c, r) => OrElse(t, MarkBlockReady(t, c, r))
    case OpAnnounce(cs, now) => OrElse(t, SetLastAnnouncement(t, cs, now))
  }

  function Run(t: Tables, ops: seq<Op>): Tables {
    if ops == [] then t else Step(Run(t, ops[..|ops| - 1]), ops[|ops| - 1])
  }

  /** An announcement changes the time of the announced rows and nothing else. */
  lemma {:induction false} AnnouncementIsExact(t: Tables, cs: seq<Cid>, now: int)
    ensures SetLastAnnouncement(t, cs, now).Some? <==> forall c :: c in cs ==> IsReady(t, NormalizeCid(c))
    ensures SetLastAnnouncement(t, cs, now).Some? ==>
              SetLastAnnouncement(t, cs, now).value.links == t.links &&
              SetLastAnnouncement(t, cs, now).value.blocks ==
              map c | c in t.blocks ::
                if c in NormalizeAll(cs) then t.blocks[c].(last := Some(now)) else t.blocks[c]
  {
    if cs == [] {
    } else {
      var front, c := cs[..|cs| - 1], cs[|cs| - 1];
      assert cs == front + [c];
      AnnouncementIsExact(t, front, now);
      assert NormalizeAll(cs) == NormalizeAll(front) + [NormalizeCid(c)];
    }
  }

  lemma StepKeepsConsistency(t: Tables, op: Op)
    requires Consistent(t) && NoOrphans(t)
    ensures Consistent(Step(t, op)) && NoOrphans(Step(t, op))
  {
    match op
    case OpPin(b) => if Pin(t, b).Some? { PinKeeps(t, b); }
    case OpBatchPin(bs) => if BatchPin(t, bs).Some? { BatchPinKeeps(t, bs); }
    case OpUnpin(_) =>
    case OpMarkReady(_, _) =>
    case OpAnnounce(cs, now) => AnnouncementIsExact(t, cs, now);
  }

  /** No run leaves a link row that points at a missing block, and none creates an orphaned row, so
      every batch of every run is accepted. */
  lemma {:induction false} RunsStayConsistent(ops: seq<Op>, bs: seq<PinnedBlock>)
    ensures Consistent(Run(Tables(map[], {}), ops)) && NoOrphans(Run(Tables(map[], {}), ops))
    ensures ContentAddressed(bs) ==> BatchPin(Run(Tables(map[], {}), ops), bs).Some?
  {
    if ops != [] {
      RunsStayConsistent(ops[..|ops| - 1], bs);
      StepKeepsConsistency(Run(Tables(map[], {}), ops[..|ops| - 1]), ops[|ops| - 1]);
    }
    if ContentAddressed(bs) {
      BatchClosedForm(Run(Tables(map[], {}), ops), bs);
    }
  }

  // ---- children of an uploaded block -----------------------------------------------------------

  /** The links of a block whose child is ready, in order. */
  function ReadyRows(t: Tables, p: PinnedBlock, n: nat): seq<Link>
    requires n <= |p.links|
  {
    if n == 0 then []
    else ReadyRows(t, p, n - 1) +
         if IsReady(t, p.links[n - 1]) then [Link(Some(p.cid), p.links[n - 1], n - 1)] else []
  }

  function ReadyLinkSet(t: Tables, p: PinnedBlock, n: nat): set<Link>
    requires n <= |p.links|
  {
    set i | 0 <= i < n && IsReady(t, p.links[i]) :: Link(Some(p.cid), p.links[i], i)
  }

  lemma ReadyLinkSetGrows(t: Tables, p: PinnedBlock, n: nat)
    requires 0 < n <= |p.links|
    ensures ReadyLinkSet(t, p, n) ==
            ReadyLinkSet(t, p, n - 1) +
            if IsReady(t, p.links[n - 1]) then {Link(Some(p.cid), p.links[n - 1], n - 1)} else {}
  {
  }

  lemma {:induction false} ReadyRowsExact(t: Tables, p: PinnedBlock, n: nat)
    requires n <= |p.links|
    ensures var rows := ReadyRows(t, p, n);
            && (forall i, j :: 0 <= i < j < |rows| ==> rows[i].index < rows[j].index)
            && (forall i :: 0 <= i < |rows| ==> rows[i].index < n)
            && Elems(rows) == ReadyLinkSet(t, p, n)
  {
    if n > 0 {
      ReadyRowsExact(t, p, n - 1);
      ReadyLinkSetGrows(t, p, n);
    }
  }

  lemma {:induction false} AllReadyRowsInOrder(t: Tables, p: PinnedBlock, n: nat)
    requires n <= |p.links| && forall i :: 0 <= i < n ==> IsReady(t, p.links[i])
    ensures |ReadyRows(t, p, n)| == n && forall i :: 0 <= i < n ==> ReadyRows(t, p, n)[i].child == p.links[i]
  {
    if n > 0 {
      AllReadyRowsInOrder(t, p, n - 1);
    }
  }

  lemma NonEmptyHasElements<T>(s: seq<T>)
    ensures s != [] ==> Elems(s) != {}
  {
    if s != [] {
      assert s[0] in Elems(s);
    }
  }

  /** A set of rows with distinct indices has one listing in index order. */
  lemma {:induction false} OneListing(rows: seq<Link>, expected: seq<Link>)
    requires Distinct(rows) && SortedByIndex(rows) && Elems(rows) == Elems(expected)
    requires forall i, j :: 0 <= i < j < |expected| ==> expected[i].index < expected[j].index
    ensures rows == expected
  {
    if rows == [] {
      NonEmptyHasElements(expected);
    } else {
      assert rows[0] in Elems(expected);
      var r, e := rows[|rows| - 1], expected[|expected| - 1];
      assert e in Elems(rows) && r in Elems(expected);
      assert r.index <= e.index && e.index <= r.index;
      assert r == e;
      var rs, es := rows[..|rows| - 1], expected[..|expected| - 1];
      forall x ensures x in Elems(rs) <==> x in Elems(es) {
        assert x in Elems(rs) ==> x in Elems(rows);
        assert x in Elems(es) ==> x in Elems(expected);
      }
      OneListing(rs, es);
    }
  }

  /** After an upload a block that had no link rows has exactly its own. */
  lemma LinksAfterUpload(links: set<Link>, ps: set<PinnedBlock>, p: PinnedBlock)
    requires p in ps && OneBlockPerCid(ps)
    requires forall l :: l in links ==> l.parent != Some(p.cid)
    ensures forall l :: l in LinksAfter(links, ps) && l.parent == Some(p.cid) <==> l in LinksFrom(p)
  {
  }

  lemma PreparedOncePerCid(bs: seq<PinnedBlock>, b: PinnedBlock)
    requires ContentAddressed(bs) && b in bs
    ensures OneBlockPerCid(Elems(PrepareAll(bs))) && Prepare(b) in Elems(PrepareAll(bs))
  {
  }

  lemma ListingIsReadyRows(u: Tables, p: PinnedBlock, rows: seq<Link>)
    requires forall l :: l in u.links && l.parent == Some(p.cid) <==> l in LinksFrom(p)
    requires ListsChildren(u, p.cid, rows)
    ensures rows == ReadyRows(u, p, |p.links|)
  {
    var n := |p.links|;
    assert ReadyLinksFrom(u, p.cid) == ReadyLinkSet(u, p, n);
    ReadyRowsExact(u, p, n);
    OneListing(rows, ReadyRows(u, p, n));
  }

  lemma AllReadyRows(u: Tables, b: PinnedBlock)
    requires forall c :: c in b.links ==> IsReady(u, NormalizeCid(c))
    ensures ChildCids(ReadyRows(u, Prepare(b), |Prepare(b).links|)) == Uniq(NormalizeAll(b.links))
  {
    var p := Prepare(b);
    forall i | 0 <= i < |p.links| ensures IsReady(u, p.links[i]) {
      assert p.links[i] in NormalizeAll(b.links);
    }
    AllReadyRowsInOrder(u, p, |p.links|);
  }

  /** After an upload of a block that had no link rows, the children query returns exactly its ready
      links in order; when all children are ready, these are its normalised links without repetitions. */
  lemma ChildrenAfterUpload(t: Tables, bs: seq<PinnedBlock>, b: PinnedBlock, rows: seq<Link>)
    requires NoOrphans(t) && ContentAddressed(bs) && b in bs
    requires forall l :: l in t.links ==> l.parent != Some(NormalizeCid(b.cid))
    requires BatchPin(t, bs).Some? && ListsChildren(BatchPin(t, bs).value, NormalizeCid(b.cid), rows)
    ensures rows == ReadyRows(BatchPin(t, bs).value, Prepare(b), |Prepare(b).links|)
    ensures (forall c :: c in b.links ==> IsReady(BatchPin(t, bs).value, NormalizeCid(c))) ==>
              ChildCids(rows) == Uniq(NormalizeAll(b.links))
  {
    var u := BatchPin(t, bs).value;
    assert u.links == LinksAfter(t.links, Elems(PrepareAll(bs))) by {
      BatchClosedForm(t, bs);
    }
    PreparedOncePerCid(bs, b);
    LinksAfterUpload(t.links, Elems(PrepareAll(bs)), Prepare(b));
    ListingIsReadyRows(u, Prepare(b), rows);
    if forall c :: c in b.links ==> IsReady(u, NormalizeCid(c)) {
      AllReadyRows(u, b);
    }
  }

  /** When the children belong to the same upload they are ready, so the query returns every link. */
  lemma ChildrenOfCompleteUpload(t: Tables, bs: seq<PinnedBlock>, b: PinnedBlock, rows: seq<Link>)
    requires Consistent(t) && NoOrphans(t) && ContentAddressed(bs) && b in bs
    requires forall l :: l in t.links ==> l.parent != Some(NormalizeCid(b.cid))
    requires forall c :: c in b.links ==> exists d :: d in bs && NormalizeCid(d.cid) == NormalizeCid(c)
    requires BatchPin(t, bs).Some? && ListsChildren(BatchPin(t, bs).value, NormalizeCid(b.cid), rows)
    ensures ChildCids(rows) == Uniq(NormalizeAll(b.links)) && Distinct(ChildCids(rows))
  {
    BatchPinKeeps(t, bs);
    ChildrenAfterUpload(t, bs, b, rows);
    UniqIsDistinct(NormalizeAll(b.links));
  }

  // ---- orphaned rows ---------------------------------------------------------------------------

  /** The result of an upload does not depend on the order of its blocks. */
  ghost predicate OrderIrrelevant(t: Tables) {
    forall xs, ys :: ContentAddressed(xs) && ContentAddressed(ys) && multiset(xs) == multiset(ys) ==>
                       BatchPin(t, xs) == BatchPin(t, ys)
  }

  function LinkHeight(l: Link): nat {
    MultihashOf(l.child) + l.index + if l.parent.Some? then MultihashOf(l.parent.value) else 0
  }

  lemma {:induction false} LinksAreBounded(links: set<Link>) returns (h: nat)
    ensures forall l :: l in links ==> LinkHeight(l) < h
  {
    h := 0;
    if links != {} {
      var l :| l in links;
      var g := LinksAreBounded(links - {l});
      h := g + LinkHeight(l) + 1;
    }
  }

  /** h filler links to CIDs above every known multihash, then a link to the orphan's child. */
  function Probe(h: nat, codec: nat, child: Cid): (b: PinnedBlock)
    ensures |b.links| == h + 1 && b.links[h] == child && b.cid == V1(codec, h)
    ensures forall i :: 0 <= i < h ==> b.links[i] == V1(0, h + i + 1)
  {
    PinnedBlock(V1(codec, h), seq(h, (i: nat) => V1(0, h + i + 1)) + [child], 0, None)
  }

  function ProbeRows(h: nat, codec: nat, child: Cid, n: nat): set<Link>
    requires n <= h + 1
  {
    var b := Probe(h, codec, child);
    set i | 0 <= i < n :: Link(Some(b.cid), b.links[i], i)
  }

  /** The first pin of a probe only adds rows. */
  lemma {:induction false} FirstProbe(links: set<Link>, h: nat, codec: nat, child: Cid, n: nat)
    requires n <= h + 1
    requires forall l :: l in links ==> l.parent != Some(V1(codec, h))
    ensures var b := Probe(h, codec, child);
            AddLinks(links, b.cid, b.links, n) == Some(links + ProbeRows(h, codec, child, n))
  {
    var b := Probe(h, codec, child);
    if n == 0 {
      assert links + ProbeRows(h, codec, child, 0) == links;
    } else {
      FirstProbe(links, h, codec, child, n - 1);
      assert ProbeRows(h, codec, child, n) ==
             ProbeRows(h, codec, child, n - 1) + {Link(Some(b.cid), b.links[n - 1], n - 1)};
      assert links + ProbeRows(h, codec, child, n) ==
             links + ProbeRows(h, codec, child, n - 1) + {Link(Some(b.cid), b.links[n - 1], n - 1)};
    }
  }

  /** The second pin of a probe adopts the orphans of its last link and touches nothing else. */
  lemma {:induction false} SecondProbe(links: set<Link>, h: nat, codec: nat, child: Cid, n: nat)
    requires n <= h
    requires var b := Probe(h, codec, child);
             forall i :: 0 <= i <= h ==> Link(Some(b.cid), b.links[i], i) in links
    requires forall l :: l in links && l.parent == None ==> LinkHeight(l) < h
    ensures var b := Probe(h, codec, child); AddLinks(links, b.cid, b.links, n) == Some(links)
  {
    var b := Probe(h, codec, child);
    if n > 0 {
      SecondProbe(links, h, codec, child, n - 1);
      assert forall l :: l in links && l.parent == None ==> MultihashOf(l.child) <= LinkHeight(l) < h;
      assert OrphansOf(links, b.links[n - 1]) == {};
      assert AdoptedBy(links, b.cid, b.links[n - 1]) == {};
      assert links - {} + {} == links;
    }
  }

  /** The link table after pinning a probe twice. */
  function AfterTwoProbes(links: set<Link>, h: nat, codec: nat, child: Cid): set<Link> {
    links + ProbeRows(h, codec, child, h + 1) - OrphansOf(links, child) + AdoptedBy(links, V1(codec, h), child)
  }

  /** Orphans are low and the probe is new: what two pins of it need. */
  ghost predicate FitsProbe(links: set<Link>, h: nat, codec: nat) {
    && (forall l :: l in links && l.parent == None ==> LinkHeight(l) < h)
    && (forall l :: l in links ==> l.parent != Some(V1(codec, h)))
  }

  lemma ProbeTwice(links: set<Link>, h: nat, codec: nat, child: Cid)
    requires FitsProbe(links, h, codec)
    ensures var b := Probe(h, codec, child);
            && AddLinks(links, b.cid, b.links, h + 1) == Some(links + ProbeRows(h, codec, child, h + 1))
            && AddLinks(links + ProbeRows(h, codec, child, h + 1), b.cid, b.links, h + 1) ==
               Some(AfterTwoProbes(links, h, codec, child))
  {
    var b := Probe(h, codec, child);
    FirstProbe(links, h, codec, child, h + 1);
    var once := links + ProbeRows(h, codec, child, h + 1);
    SecondProbe(once, h, codec, child, h);
    assert OrphansOf(once, child) == OrphansOf(links, child);
    assert AdoptedBy(once, b.cid, child) == AdoptedBy(links, b.cid, child);
    forall l | l in AdoptedBy(once, b.cid, child) ensures l !in once {
      var o :| o in OrphansOf(links, child) && l == Link(Some(b.cid), child, o.index);
      assert o.index <= LinkHeight(o) < h;
    }
  }

  /** Two blocks, each pinned twice. */
  lemma FourPins(t: Tables, h: nat, first: nat, second: nat, child: Cid)
    requires first != second && FitsProbe(t.links, h, first) && FitsProbe(t.links, h, second)
    requires Normalized(child) && MultihashOf(child) < h
    ensures var a, b := Probe(h, first, child), Probe(h, second, child);
            var r := BatchPin(t, [a, a, b, b]);
            && r.Some?
            && r.value.links == AfterTwoProbes(AfterTwoProbes(t.links, h, first, child), h, second, child)
  {
    var a, b := Probe(h, first, child), Probe(h, second, child);
    var bs := [a, a, b, b];
    ProbeIsPrepared(h, first, child);
    ProbeIsPrepared(h, second, child);
    assert PrepareAll(bs) == bs;
    ProbeTwice(t.links, h, first, child);
    var ls := AfterTwoProbes(t.links, h, first, child);
    ProbeTwice(ls, h, second, child);
    assert bs[..3] == [a, a, b] && bs[..3][..2] == [a, a] && [a, a][..1] == [a];
    var t0 := t.(blocks := EnsureBlocks(t.blocks, ChildrenOf(bs)));
    assert PinAllInTx(t0, [a]).Some? && PinAllInTx(t0, [a]).value.links == t.links + ProbeRows(h, first, child, h + 1);
    assert PinAllInTx(t0, [a, a]).Some? && PinAllInTx(t0, [a, a]).value.links == ls;
    assert PinAllInTx(t0, [a, a, b]).Some? &&
           PinAllInTx(t0, [a, a, b]).value.links == ls + ProbeRows(h, second, child, h + 1);
  }

  lemma ProbeIsPrepared(h: nat, codec: nat, child: Cid)
    requires Normalized(child) && MultihashOf(child) < h
    ensures Prepare(Probe(h, codec, child)) == Probe(h, codec, child)
  {
    var b := Probe(h, codec, child);
    assert NormalizeAll(b.links) == b.links;
    assert Distinct(b.links);
    UniqOfDistinct(b.links);
  }

  /** The first probe to be pinned twice takes the orphan; it keeps it, and the other never gets it. */
  lemma FirstProbeAdopts(links: set<Link>, h: nat, first: nat, second: nat, o: Link)
    requires first != second && o in links && o.parent == None && LinkHeight(o) < h
    requires FitsProbe(links, h, first) && FitsProbe(links, h, second)
    ensures var after := AfterTwoProbes(AfterTwoProbes(links, h, first, o.child), h, second, o.child);
            && Link(Some(V1(first, h)), o.child, o.index) in after
            && Link(Some(V1(second, h)), o.child, o.index) !in after
  {
  }

  /** One orphaned row is enough for the order of some upload to show. */
  lemma OrphanMakesOrderMatter(t: Tables, o: Link)
    requires o in t.links && o.parent == None && Normalized(o.child)
    ensures !OrderIrrelevant(t)
  {
    var h := LinksAreBounded(t.links);
    assert LinkHeight(o) < h;
    FitsAbove(t.links, h, 0);
    FitsAbove(t.links, h, 1);
    FourPins(t, h, 0, 1, o.child);
    FourPins(t, h, 1, 0, o.child);
    FirstProbeAdopts(t.links, h, 0, 1, o);
    FirstProbeAdopts(t.links, h, 1, 0, o);
    ProbeOrders(h, o.child);
    var a, b := Probe(h, 0, o.child), Probe(h, 1, o.child);
    OrderShows(t, [a, a, b, b], [b, b, a, a], Link(Some(V1(0, h)), o.child, o.index));
  }

  lemma OrderShows(t: Tables, xs: seq<PinnedBlock>, ys: seq<PinnedBlock>, l: Link)
    requires ContentAddressed(xs) && ContentAddressed(ys) && multiset(xs) == multiset(ys)
    requires BatchPin(t, xs).Some? && l in BatchPin(t, xs).value.links
    requires BatchPin(t, ys).Some? && l !in BatchPin(t, ys).value.links
    ensures !OrderIrrelevant(t)
  {
    assert BatchPin(t, xs) != BatchPin(t, ys);
  }

  lemma FitsAbove(links: set<Link>, h: nat, codec: nat)
    requires forall l :: l in links ==> LinkHeight(l) < h
    ensures FitsProbe(links, h, codec)
  {
  }

  lemma ProbeOrders(h: nat, child: Cid)
    ensures var a, b := Probe(h, 0, child), Probe(h, 1, child);
            && ContentAddressed([a, a, b, b]) && ContentAddressed([b, b, a, a])
            && multiset([a, a, b, b]) == multiset([b, b, a, a])
  {
    TwoOfEach(Probe(h, 0, child), Probe(h, 1, child));
  }

  lemma TwoOfEach(a: PinnedBlock, b: PinnedBlock)
    requires NormalizeCid(a.cid) != NormalizeCid(b.cid)
    ensures ContentAddressed([a, a, b, b]) && ContentAddressed([b, b, a, a])
    ensures multiset([a, a, b, b]) == multiset([b, b, a, a])
  {
    assert [a, a, b, b] == [a, a] + [b, b] && [b, b, a, a] == [b, b] + [a, a];
  }

  lemma OrderOfUploadIsIrrelevant(t: Tables, xs: seq<PinnedBlock>, ys: seq<PinnedBlock>)
    requires NoOrphans(t) && ContentAddressed(xs) && ContentAddressed(ys) && multiset(xs) == multiset(ys)
    ensures BatchPin(t, xs) == BatchPin(t, ys)
  {
    SameBlocksPrepared(xs, ys);
    SameBlocksPrepared(ys, xs);
    var ps := Elems(PrepareAll(xs));
    assert ps == Elems(PrepareAll(ys));
    ReferenceFor(t, xs, ps);
    ReferenceFor(t, ys, ps);
  }

  lemma ReferenceFor(t: Tables, bs: seq<PinnedBlock>, ps: set<PinnedBlock>)
    requires NoOrphans(t) && ContentAddressed(bs) && ps == Elems(PrepareAll(bs))
    ensures BatchPin(t, bs) == Some(AfterUpload(t, ps))
  {
    BatchClosedForm(t, bs);
  }

  /** The order of an upload is irrelevant exactly when the link table holds no orphaned row. */
  lemma OrderIrrelevantIffNoOrphans(t: Tables)
    requires forall l :: l in t.links ==> Normalized(l.child)
    ensures OrderIrrelevant(t) <==> NoOrphans(t)
  {
    if NoOrphans(t) {
      forall xs, ys | ContentAddressed(xs) && ContentAddressed(ys) && multiset(xs) == multiset(ys)
        ensures BatchPin(t, xs) == BatchPin(t, ys)
      {
        OrderOfUploadIsIrrelevant(t, xs, ys);
      }
    } else {
      var o :| o in t.links && o.parent == None;
      OrphanMakesOrderMatter(t, o);
    }
  }

  lemma SameBlocksPrepared(xs: seq<PinnedBlock>, ys: seq<PinnedBlock>)
    requires multiset(xs) == multiset(ys)
    ensures Elems(PrepareAll(xs)) <= Elems(PrepareAll(ys))
  {
    forall p | p in PrepareAll(xs) ensures p in PrepareAll(ys) {
      var i :| 0 <= i < |xs| && PrepareAll(xs)[i] == p;
      assert xs[i] in multiset(xs);
      assert xs[i] in ys;
      var j :| 0 <= j < |ys| && ys[j] == xs[i];
      assert PrepareAll(ys)[j] == p;
    }
  }
}
