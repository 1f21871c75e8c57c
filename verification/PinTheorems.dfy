/** Batches are sequences of pins, and only the set of pinned blocks matters. */
module PinTheorems {
  import opened Wrappers
  import opened Cids
  import opened ContentTables

  // ---- a batch is the sequence of its pins -----------------------------------------------------

  lemma EnsureThenUpsert(blocks: map<Cid, BlockInfo>, cs: set<Cid>, b: PinnedBlock)
    ensures UpsertBlock(EnsureBlocks(blocks, cs), b) == EnsureBlocks(UpsertBlock(blocks, b), cs)
  {
  }

  /** Placeholders inserted before a pin or after it give the same tables. */
  lemma EnsureCommutes(t: Tables, cs: set<Cid>, b: PinnedBlock)
    ensures PinInTx(t.(blocks := EnsureBlocks(t.blocks, cs)), b) ==
            match PinInTx(t, b)
            case None => None
            case Some(u) => Some(u.(blocks := EnsureBlocks(u.blocks, cs)))
  {
    EnsureThenUpsert(t.blocks, cs, b);
  }

  lemma {:induction false} EnsureCommutesAll(t: Tables, cs: set<Cid>, bs: seq<PinnedBlock>)
    ensures PinAllInTx(t.(blocks := EnsureBlocks(t.blocks, cs)), bs) ==
            match PinAllInTx(t, bs)
            case None => None
            case Some(u) => Some(u.(blocks := EnsureBlocks(u.blocks, cs)))
  {
    if bs != [] {
      EnsureCommutesAll(t, cs, bs[..|bs| - 1]);
      match PinAllInTx(t, bs[..|bs| - 1])
      case None =>
      case Some(u) => EnsureCommutes(u, cs, bs[|bs| - 1]);
    }
  }

  lemma EnsureTwice(blocks: map<Cid, BlockInfo>, cs: set<Cid>, ds: set<Cid>)
    ensures EnsureBlocks(EnsureBlocks(blocks, cs), ds) == EnsureBlocks(blocks, cs + ds)
  {
  }

  /** BatchPin and pinning one by one give the same tables, and one fails exactly when the other does. */
  lemma {:induction false} BatchIsSequence(t: Tables, bs: seq<PinnedBlock>)
    ensures BatchPin(t, bs) == PinEach(t, bs)
  {
    var ps := PrepareAll(bs);
    if bs == [] {
      assert ChildrenOf(ps) == {};
      assert EnsureBlocks(t.blocks, {}) == t.blocks;
    } else {
      var front, last := bs[..|bs| - 1], bs[|bs| - 1];
      var pf := PrepareAll(front);
      BatchIsSequence(t, front);
      assert ps[..|ps| - 1] == pf;
      var p := Prepare(last);
      assert ps == pf + [p];
      assert ChildrenOf(ps) == ChildrenOf(pf) + Elems(p.links);
      var t1 := t.(blocks := EnsureBlocks(t.blocks, ChildrenOf(pf)));
      EnsureTwice(t.blocks, ChildrenOf(pf), Elems(p.links));
      EnsureCommutesAll(t1, Elems(p.links), pf);
      assert BatchPin(t, front) == PinAllInTx(t1, pf);
    }
  }

  // ---- splitting into transactions -------------------------------------------------------------

  lemma {:induction false} PinEachAppend(t: Tables, xs: seq<PinnedBlock>, ys: seq<PinnedBlock>)
    ensures PinEach(t, xs + ys) ==
            match PinEach(t, xs)
            case None => None
            case Some(u) => PinEach(u, ys)
  {
    if ys == [] {
      assert xs + ys == xs;
    } else {
      var front := ys[..|ys| - 1];
      PinEachAppend(t, xs, front);
      PinEachLast(t, xs + front, ys[|ys| - 1]);
      assert xs + ys == (xs + front) + [ys[|ys| - 1]];
    }
  }

  lemma PinEachLast(t: Tables, xs: seq<PinnedBlock>, b: PinnedBlock)
    ensures PinEach(t, xs + [b]) ==
            match PinEach(t, xs)
            case None => None
            case Some(u) => Pin(u, b)
  {
    assert (xs + [b])[..|xs|] == xs;
  }

  function Concat(batches: seq<seq<PinnedBlock>>): seq<PinnedBlock> {
    if batches == [] then [] else Concat(batches[..|batches| - 1]) + batches[|batches| - 1]
  }

  /** One transaction per batch; the first failing batch ends the run. */
  function BatchPinEach(t: Tables, batches: seq<seq<PinnedBlock>>): Option<Tables> {
    if batches == [] then Some(t)
    else
      match BatchPinEach(t, batches[..|batches| - 1])
      case None => None
      case Some(u) => BatchPin(u, batches[|batches| - 1])
  }

  /** Where an upload is cut into batches makes no difference. */
  lemma {:induction false} BatchingIsConcatenation(t: Tables, batches: seq<seq<PinnedBlock>>)
    ensures BatchPinEach(t, batches) == BatchPin(t, Concat(batches))
  {
    BatchIsSequence(t, Concat(batches));
    if batches != [] {
      var front, last := batches[..|batches| - 1], batches[|batches| - 1];
      BatchingIsConcatenation(t, front);
      BatchIsSequence(t, Concat(front));
      PinEachAppend(t, Concat(front), last);
      match BatchPinEach(t, front)
      case None =>
      case Some(u) => BatchIsSequence(u, last);
    }
  }

  // ---- a closed form: only the set of blocks matters -------------------------------------------

  /** Equal CIDs name equal blocks. */
  ghost predicate ContentAddressed(bs: seq<PinnedBlock>) {
    forall b, d :: b in bs && d in bs && NormalizeCid(b.cid) == NormalizeCid(d.cid) ==> Prepare(b) == Prepare(d)
  }

  /** The same for blocks that are prepared already. */
  ghost predicate OneBlockPerCid(ps: set<PinnedBlock>) {
    forall p, q :: p in ps && q in ps && p.cid == q.cid ==> p == q
  }

  ghost predicate PinnedIn(ps: set<PinnedBlock>, c: Cid) {
    exists p :: p in ps && p.cid == c
  }

  ghost function BlockFor(ps: set<PinnedBlock>, c: Cid): (p: PinnedBlock)
    requires PinnedIn(ps, c)
    ensures p in ps && p.cid == c
  {
    var p :| p in ps && p.cid == c; p
  }

  function CidsOf(ps: set<PinnedBlock>): set<Cid> {
    set p | p in ps :: p.cid
  }

  ghost function InfoAfter(blocks: map<Cid, BlockInfo>, ps: set<PinnedBlock>, c: Cid): BlockInfo {
    var was := if c in blocks then blocks[c] else PLACEHOLDER;
    if PinnedIn(ps, c) then
      var p := BlockFor(ps, c);
      BlockInfo(p.size, was.last, true, if p.unixfs.Some? then p.unixfs else was.unixfs)
    else was
  }

  ghost function BlocksAfter(blocks: map<Cid, BlockInfo>, ps: set<PinnedBlock>): map<Cid, BlockInfo> {
    map c | c in blocks.Keys + CidsOf(ps) :: InfoAfter(blocks, ps, c)
  }

  function LinksFrom(p: PinnedBlock): set<Link> {
    set i | 0 <= i < |p.links| :: Link(Some(p.cid), p.links[i], i)
  }

  function LinksAfter(links: set<Link>, ps: set<PinnedBlock>): set<Link> {
    links + set p, l | p in ps && l in LinksFrom(p) :: l
  }

  function ChildrenIn(ps: set<PinnedBlock>): set<Cid> {
    set p, c | p in ps && c in p.links :: c
  }

  /** The tables after an upload, written without any order: a reference for every way of pinning it. */
  ghost function AfterUpload(t: Tables, ps: set<PinnedBlock>): Tables {
    Tables(BlocksAfter(EnsureBlocks(t.blocks, ChildrenIn(ps)), ps), LinksAfter(t.links, ps))
  }

  lemma {:induction false} AddLinksWithoutOrphans(links: set<Link>, p: PinnedBlock, n: nat)
    requires n <= |p.links|
    requires forall l :: l in links ==> l.parent.Some?
    ensures AddLinks(links, p.cid, p.links, n) ==
            Some(links + set i | 0 <= i < n :: Link(Some(p.cid), p.links[i], i))
  {
    var added := set i | 0 <= i < n :: Link(Some(p.cid), p.links[i], i);
    if n == 0 {
      assert links + added == links;
    } else {
      AddLinksWithoutOrphans(links, p, n - 1);
      var ls := links + set i | 0 <= i < n - 1 :: Link(Some(p.cid), p.links[i], i);
      assert OrphansOf(ls, p.links[n - 1]) == {};
      assert AdoptedBy(ls, p.cid, p.links[n - 1]) == {};
      var l := Link(Some(p.cid), p.links[n - 1], n - 1);
      assert links + added == ls + {l};
      assert AddLink(ls, p.cid, p.links[n - 1], n - 1) == Some(ls + {l}) by {
        if l in ls {
          assert ls - {} + {} == ls + {l};
        }
      }
    }
  }

  lemma UpsertExtends(blocks: map<Cid, BlockInfo>, ps: set<PinnedBlock>, p: PinnedBlock)
    requires OneBlockPerCid(ps + {p})
    ensures UpsertBlock(BlocksAfter(blocks, ps), p) == BlocksAfter(blocks, ps + {p})
  {
    CidsGrow(ps, p);
    assert UpsertBlock(BlocksAfter(blocks, ps), p).Keys == BlocksAfter(blocks, ps + {p}).Keys;
    forall c | c in BlocksAfter(blocks, ps + {p})
      ensures UpsertBlock(BlocksAfter(blocks, ps), p)[c] == InfoAfter(blocks, ps + {p}, c)
    {
      if c == p.cid {
        InfoOfUpserted(blocks, ps, p);
      } else {
        InfoOfOthers(blocks, ps, p, c);
      }
    }
  }

  lemma CidsGrow(ps: set<PinnedBlock>, p: PinnedBlock)
    ensures CidsOf(ps + {p}) == CidsOf(ps) + {p.cid}
  {
  }

  lemma InfoOfUpserted(blocks: map<Cid, BlockInfo>, ps: set<PinnedBlock>, p: PinnedBlock)
    requires OneBlockPerCid(ps + {p})
    ensures UpsertBlock(BlocksAfter(blocks, ps), p)[p.cid] == InfoAfter(blocks, ps + {p}, p.cid)
  {
    assert p in ps + {p} && PinnedIn(ps + {p}, p.cid) && BlockFor(ps + {p}, p.cid) == p;
    if PinnedIn(ps, p.cid) {
      assert BlockFor(ps, p.cid) in ps + {p};
    }
  }

  lemma InfoOfOthers(blocks: map<Cid, BlockInfo>, ps: set<PinnedBlock>, p: PinnedBlock, c: Cid)
    requires OneBlockPerCid(ps + {p}) && c != p.cid
    ensures InfoAfter(blocks, ps, c) == InfoAfter(blocks, ps + {p}, c)
  {
    if PinnedIn(ps, c) {
      assert BlockFor(ps, c) in ps + {p} && PinnedIn(ps + {p}, c);
    }
  }

  lemma {:induction false} PinAllClosedForm(t: Tables, ps: seq<PinnedBlock>)
    requires NoOrphans(t) && OneBlockPerCid(Elems(ps))
    ensures PinAllInTx(t, ps) == Some(Tables(BlocksAfter(t.blocks, Elems(ps)), LinksAfter(t.links, Elems(ps))))
  {
    if ps == [] {
      assert BlocksAfter(t.blocks, Elems(ps)) == t.blocks;
      assert LinksAfter(t.links, Elems(ps)) == t.links;
    } else {
      var front, p := ps[..|ps| - 1], ps[|ps| - 1];
      assert ps == front + [p];
      assert Elems(ps) == Elems(front) + {p};
      PinAllClosedForm(t, front);
      var ls := LinksAfter(t.links, Elems(front));
      AddLinksWithoutOrphans(ls, p, |p.links|);
      assert LinksAfter(t.links, Elems(ps)) == ls + LinksFrom(p);
      UpsertExtends(t.blocks, Elems(front), p);
    }
  }

  /** With no orphaned rows an upload never fails, and its result is the order-free reference. */
  lemma BatchClosedForm(t: Tables, bs: seq<PinnedBlock>)
    requires NoOrphans(t) && ContentAddressed(bs)
    ensures BatchPin(t, bs) == Some(AfterUpload(t, Elems(PrepareAll(bs))))
  {
    var ps := PrepareAll(bs);
    forall p, q | p in ps && q in ps && p.cid == q.cid ensures p == q {
      var i :| 0 <= i < |ps| && ps[i] == p;
      var j :| 0 <= j < |ps| && ps[j] == q;
      assert bs[i] in bs && bs[j] in bs;
    }
    assert ChildrenOf(ps) == ChildrenIn(Elems(ps));
    PinAllClosedForm(t.(blocks := EnsureBlocks(t.blocks, ChildrenOf(ps))), ps);
  }

  /** However the same blocks are ordered, repeated or cut into batches, the tables end up the same. */
  lemma UploadOrderIsIrrelevant(t: Tables, xs: seq<seq<PinnedBlock>>, ys: seq<seq<PinnedBlock>>)
    requires NoOrphans(t)
    requires ContentAddressed(Concat(xs)) && ContentAddressed(Concat(ys))
    requires Elems(PrepareAll(Concat(xs))) == Elems(PrepareAll(Concat(ys)))
    ensures BatchPinEach(t, xs) == BatchPinEach(t, ys)
    ensures BatchPinEach(t, xs).Some?
  {
    BatchingIsConcatenation(t, xs);
    BatchingIsConcatenation(t, ys);
    BatchClosedForm(t, Concat(xs));
    BatchClosedForm(t, Concat(ys));
  }

  // ---- what pinning keeps ----------------------------------------------------------------------

  /** Rows never disappear, ready rows stay ready, announcement times stay, links from parents stay. */
  ghost predicate Extends(t: Tables, u: Tables) {
    && (forall c :: c in t.blocks ==> c in u.blocks && u.blocks[c].last == t.blocks[c].last)
    && (forall c :: IsReady(t, c) ==> IsReady(u, c))
    && (forall l :: l in t.links && l.parent.Some? ==> l in u.links)
    && (forall c :: c in u.blocks && c !in t.blocks ==> u.blocks[c].last == None)
  }

  lemma {:induction false} AddLinksKeeps(t: Tables, p: PinnedBlock, n: nat)
    requires n <= |p.links| && p.cid in t.blocks && Consistent(t)
    requires forall c :: c in p.links ==> c in t.blocks
    requires AddLinks(t.links, p.cid, p.links, n).Some?
    ensures var ls := AddLinks(t.links, p.cid, p.links, n).value;
            && Consistent(Tables(t.blocks, ls))
            && (forall l :: l in t.links && l.parent.Some? ==> l in ls)
            && (NoOrphans(t) ==> NoOrphans(Tables(t.blocks, ls)))
  {
    if n > 0 {
      AddLinksKeeps(t, p, n - 1);
    }
  }

  /** A pin keeps the tables consistent and forgets nothing. */
  lemma PinKeeps(t: Tables, b: PinnedBlock)
    requires Consistent(t) && Pin(t, b).Some?
    ensures var u := Pin(t, b).value;
            && Consistent(u) && Extends(t, u) && (NoOrphans(t) ==> NoOrphans(u))
            && IsReady(u, NormalizeCid(b.cid)) && u.blocks[NormalizeCid(b.cid)].size == b.size
  {
    var p := Prepare(b);
    var rows := Tables(UpsertBlock(EnsureBlocks(t.blocks, Elems(p.links)), p), t.links);
    RowsKeep(t, p);
    AddLinksKeeps(rows, p, |p.links|);
    MoreLinksExtend(t, rows, Pin(t, b).value.links);
  }

  lemma MoreLinksExtend(t: Tables, rows: Tables, links: set<Link>)
    requires Extends(t, rows) && rows.links == t.links
    requires forall l :: l in rows.links && l.parent.Some? ==> l in links
    ensures Extends(t, Tables(rows.blocks, links))
  {
  }

  lemma RowsKeep(t: Tables, p: PinnedBlock)
    requires Consistent(t)
    ensures var u := Tables(UpsertBlock(EnsureBlocks(t.blocks, Elems(p.links)), p), t.links);
            && Consistent(u) && Extends(t, u) && IsReady(u, p.cid) && u.blocks[p.cid].size == p.size
            && forall c :: c in p.links ==> c in u.blocks
  {
  }

  lemma {:induction false} BatchPinKeeps(t: Tables, bs: seq<PinnedBlock>)
    requires Consistent(t) && BatchPin(t, bs).Some?
    ensures var u := BatchPin(t, bs).value;
            && Consistent(u) && Extends(t, u) && (NoOrphans(t) ==> NoOrphans(u))
            && forall b :: b in bs ==> IsReady(u, NormalizeCid(b.cid))
  {
    BatchIsSequence(t, bs);
    if bs != [] {
      var front, last := bs[..|bs| - 1], bs[|bs| - 1];
      BatchIsSequence(t, front);
      BatchPinKeeps(t, front);
      PinKeeps(PinEach(t, front).value, last);
      assert bs == front + [last];
    }
  }
}
