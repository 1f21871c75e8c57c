/** MetadataStoreDefault (internal/protocol/store/metadata.go) over rows with ids. Every method is proved to
    act on the CID-keyed tables as ContentTables says, and to keep the rows valid. */
module Metadata {
  import opened Wrappers
  import opened Cids
  import opened ContentTables
  import opened PinTheorems
  import opened Rows

  datatype PinnedCid = PinnedCid(cid: Cid, last: int)

  datatype Stats = Stats(total: nat, announced: nat, pending: int)

  /** The epoch stands for "never". */
  function TimeOr0(last: Option<int>): int {
    if last.Some? then last.value else 0
  }

  function ReadyIds(blocks: map<Id, BlockRow>): set<Id> {
    set i | i in blocks && blocks[i].ready
  }

  function AnnouncedIds(blocks: map<Id, BlockRow>, since: int): set<Id> {
    set i | i in blocks && blocks[i].ready && blocks[i].last.Some? && blocks[i].last.value >= since
  }

  lemma {:induction false} LeastIndex(s: set<LinkRow>)
    requires s != {}
    ensures exists x :: x in s && forall y :: y in s ==> x.index <= y.index
  {
    var a :| a in s;
    if s != {a} {
      LeastIndex(s - {a});
      var b :| b in s - {a} && forall y :: y in s - {a} ==> b.index <= y.index;
      var x := if a.index <= b.index then a else b;
      assert x in s && forall y :: y in s ==> x.index <= y.index;
    }
  }

  lemma {:induction false} OldestRow(s: set<Id>, blocks: map<Id, BlockRow>)
    requires s != {} && s <= blocks.Keys
    ensures exists x :: x in s && forall y :: y in s ==> NoLater(blocks[x].last, blocks[y].last)
  {
    var a :| a in s;
    if s != {a} {
      OldestRow(s - {a}, blocks);
      var b :| b in s - {a} && forall y :: y in s - {a} ==> NoLater(blocks[b].last, blocks[y].last);
      if NoLater(blocks[a].last, blocks[b].last) {
        assert forall y :: y in s ==> NoLater(blocks[a].last, blocks[y].last);
      } else {
        assert forall y :: y in s ==> NoLater(blocks[b].last, blocks[y].last);
      }
    }
  }

  class MetadataStore {
    var nextId: Id
    var blocks: map<Id, BlockRow>
    var links: set<LinkRow>
    var unixfs: map<Id, UnixFSRow>

    /** Whether the engine enforces the foreign key from UnixFS rows to blocks. */
    const enforceForeignKeys: bool

    ghost function Database(): Db
      reads this
    {
      Db(nextId, blocks, links, unixfs)
    }

    ghost predicate Valid()
      reads this
    {
      ValidDb(Database()) && forall i :: i in blocks ==> Normalized(blocks[i].cid)
    }

    ghost function View(): Tables
      requires Valid()
      reads this
    {
      TablesOf(Database())
    }

    constructor (enforceForeignKeys: bool)
      ensures Valid() && View() == Tables(map[], {}) && this.enforceForeignKeys == enforceForeignKeys
    {
      this.enforceForeignKeys := enforceForeignKeys;
      nextId, blocks, links, unixfs := 1, map[], {}, map[];
      new;
      assert BlocksByCid(Database()) == map[];
    }

    /** SELECT by CID. */
    method FindBlock(c: Cid) returns (id: Option<Id>)
      requires Valid()
      ensures id.Some? <==> c in View().blocks
      ensures id.Some? ==> id.value in blocks && blocks[id.value].cid == c
    {
      if i :| i in blocks && blocks[i].cid == c {
        RowOf(Database(), i);
        id := Some(i);
      } else {
        id := None;
      }
    }

    method Rollback(nextId: Id, blocks: map<Id, BlockRow>, links: set<LinkRow>, unixfs: map<Id, UnixFSRow>)
      modifies this
      ensures Database() == Db(nextId, blocks, links, unixfs)
    {
      this.nextId, this.blocks, this.links, this.unixfs := nextId, blocks, links, unixfs;
    }

    /** INSERT ... ON CONFLICT DO NOTHING of one placeholder row. */
    method EnsureChildBlock(c: Cid)
      requires Valid() && Normalized(c)
      modifies this
      ensures Valid()
      ensures View() == old(View()).(blocks := EnsureBlocks(old(View()).blocks, {c}))
    {
      var id := FindBlock(c);
      ghost var before := Database();
      if id == None {
        var row := BlockRow(c, 0, None, false);
        blocks := blocks[nextId := row];
        nextId := nextId + 1;
        InsertBlockRow(before, row, Database());
      }
      EnsureOne(BlocksByCid(before), c);
    }

    /** Bulk INSERT of placeholder rows, ignoring conflicts, in whatever order the map is iterated. */
    method EnsureChildBlocksFromSet(cids: set<Cid>)
      requires Valid() && forall c :: c in cids ==> Normalized(c)
      modifies this
      ensures Valid()
      ensures View() == old(View()).(blocks := EnsureBlocks(old(View()).blocks, cids))
    {
      var todo := cids;
      ghost var done: set<Cid> := {};
      ghost var was := View();
      assert EnsureBlocks(was.blocks, {}) == was.blocks;
      while todo != {}
        invariant todo + done == cids && Valid()
        invariant View() == was.(blocks := EnsureBlocks(was.blocks, done))
      {
        var c :| c in todo;
        EnsureChildBlock(c);
        EnsureTwice(was.blocks, done, {c});
        todo, done := todo - {c}, done + {c};
      }
      assert done == cids;
    }

    /** INSERT ... ON CONFLICT (cid) DO UPDATE of size and ready, then the id of the row. */
    method UpsertBlockRow(cid: Cid, size: nat) returns (id: Id)
      requires Valid() && Normalized(cid)
      modifies this
      ensures Valid() && id in blocks && blocks[id].cid == cid
      ensures var was := if cid in old(View()).blocks then old(View()).blocks[cid] else PLACEHOLDER;
              View() == old(View()).(blocks := old(View()).blocks[cid := was.(size := size, ready := true)])
    {
      var found := FindBlock(cid);
      ghost var before := Database();
      if found == None {
        id := nextId;
        blocks := blocks[id := BlockRow(cid, size, None, true)];
        nextId := nextId + 1;
        InsertBlockRow(before, blocks[id], Database());
      } else {
        id := found.value;
        RowOf(before, id);
        blocks := blocks[id := blocks[id].(size := size, ready := true)];
        UpdateBlockRow(before, id, blocks[id], Database());
      }
    }

    /** INSERT ... ON CONFLICT (block_id) DO UPDATE of the UnixFS row. */
    method UpsertUnixFSRow(id: Id, meta: UnixFSMeta)
      requires Valid() && id in blocks
      modifies this`unixfs
      ensures Valid() && blocks[id].cid in old(View()).blocks
      ensures var c := blocks[id].cid;
              View() == old(View()).(blocks := old(View()).blocks[c := old(View()).blocks[c].(unixfs := Some(meta))])
    {
      ghost var before := Database();
      RowOf(before, id);
      unixfs := unixfs[id := UnixFSRow(meta, false)];
      UpdateBlockRow(before, id, blocks[id], Database());
    }

    /** INSERT ... ON CONFLICT DO NOTHING of a link row; when nothing was inserted, orphans are adopted. */
    method AddLinkRow(parent: Id, child: Id, index: nat) returns (ok: bool)
      requires Valid() && parent in blocks && child in blocks
      modifies this`links
      ensures Valid()
      ensures var r := AddLink(old(View()).links, blocks[parent].cid, blocks[child].cid, index);
              (ok <==> r.Some?) && View() == old(View()).(links := if ok then r.value else old(View()).links)
    {
      ghost var before := Database();
      var row := LinkRow(Some(parent), child, index);
      LinkOf(before, row);
      if row !in links {
        links := links + {row};
        InsertLinkRow(before, row, Database());
        ok := true;
      } else {
        OrphanRowsAre(before, parent, child);
        ok := AdoptedRows(links, parent, child) !! links;
        if ok {
          links := links - OrphanRows(links, child) + AdoptedRows(links, parent, child);
          AdoptRows(before, parent, child, Database());
        }
      }
    }

    /** The link rows of a block, whose children all have rows by now. */
    method AddLinkRows(parentId: Id, children: seq<Cid>) returns (ok: bool)
      requires Valid() && parentId in blocks
      requires forall c :: c in children ==> c in View().blocks
      modifies this`links
      ensures Valid() && View().blocks == old(View()).blocks
      ensures var r := AddLinks(old(View()).links, blocks[parentId].cid, children, |children|);
              (ok <==> r.Some?) && (ok ==> View().links == r.value)
    {
      ghost var was := View();
      ok := true;
      for i := 0 to |children|
        invariant Valid() && ok && View().blocks == was.blocks
        invariant AddLinks(was.links, blocks[parentId].cid, children, i) == Some(View().links)
      {
        assert children[i] in children;
        var childId := FindBlock(children[i]);
        ok := AddLinkRow(parentId, childId.value, i);
        if !ok {
          AddLinksFailsEarly(was.links, blocks[parentId].cid, children, i + 1, |children|);
          return;
        }
      }
    }

    method UpsertPreparedBlock(b: PinnedBlock) returns (id: Id)
      requires Valid() && Normalized(b.cid)
      modifies this
      ensures Valid() && id in blocks && blocks[id].cid == b.cid
      ensures View() == old(View()).(blocks := UpsertBlock(old(View()).blocks, b))
    {
      ghost var was := View();
      id := UpsertBlockRow(b.cid, b.size);
      if b.unixfs.Some? {
        UpsertUnixFSRow(id, b.unixfs.value);
      }
      UpsertInTwo(was.blocks, b);
    }

    method PinPreparedBlockInTx(b: PinnedBlock) returns (ok: bool)
      requires Valid() && Normalized(b.cid)
      requires forall c :: c in b.links ==> c in View().blocks
      modifies this
      ensures Valid()
      ensures ok <==> PinInTx(old(View()), b).Some?
      ensures ok ==> View() == PinInTx(old(View()), b).value
    {
      var parentId := UpsertPreparedBlock(b);
      ok := AddLinkRows(parentId, b.links);
    }

    method Pin(block: PinnedBlock) returns (ok: bool)
      requires Valid()
      modifies this
      ensures Valid()
      ensures ok <==> ContentTables.Pin(old(View()), block).Some?
      ensures ok ==> View() == ContentTables.Pin(old(View()), block).value
      ensures !ok ==> Database() == old(Database())
    {
      var b := Prepare(block);
      var savedId, savedBlocks, savedLinks, savedUnixfs := nextId, blocks, links, unixfs;
      EnsureChildBlocksFromSet(Elems(b.links));
      ok := PinPreparedBlockInTx(b);
      if !ok {
        Rollback(savedId, savedBlocks, savedLinks, savedUnixfs);
      }
    }

    method BatchPin(pinned: seq<PinnedBlock>) returns (ok: bool)
      requires Valid()
      modifies this
      ensures Valid()
      ensures ok <==> ContentTables.BatchPin(old(View()), pinned).Some?
      ensures ok ==> View() == ContentTables.BatchPin(old(View()), pinned).value
      ensures !ok ==> Database() == old(Database())
    {
      var bs := PrepareAll(pinned);
      var savedId, savedBlocks, savedLinks, savedUnixfs := nextId, blocks, links, unixfs;
      assert forall c :: c in ChildrenOf(bs) ==> Normalized(c);
      EnsureChildBlocksFromSet(ChildrenOf(bs));
      ok := PinAllPrepared(bs);
      if !ok {
        Rollback(savedId, savedBlocks, savedLinks, savedUnixfs);
      }
    }

    /** The loop over the blocks of a batch; their placeholders are there already. */
    method PinAllPrepared(bs: seq<PinnedBlock>) returns (ok: bool)
      requires Valid() && (forall c :: c in ChildrenOf(bs) ==> c in View().blocks)
      requires forall b :: b in bs ==> Normalized(b.cid)
      modifies this
      ensures ok <==> PinAllInTx(old(View()), bs).Some?
      ensures ok ==> Valid() && View() == PinAllInTx(old(View()), bs).value
    {
      ghost var t := View();
      ok := true;
      for i := 0 to |bs|
        invariant Valid() && ok && PinAllInTx(t, bs[..i]) == Some(View())
        invariant forall c :: c in ChildrenOf(bs) ==> c in View().blocks
      {
        PinAllStep(t, bs, i);
        ok := PinPreparedBlockInTx(bs[i]);
        if !ok {
          PinAllFailsEarly(t, bs, i + 1);
          return;
        }
      }
      assert bs[..|bs|] == bs;
    }

    /** Soft delete of the UnixFS row, hard delete of link rows and of the block. With foreign keys
        enforced the soft-deleted UnixFS row still refers to the block, and its deletion is refused. */
    method Unpin(c: Cid) returns (ok: bool)
      requires Valid()
      modifies this
      ensures Valid()
      ensures var n := NormalizeCid(c);
              ok <==> !(enforceForeignKeys && n in old(View()).blocks && old(View()).blocks[n].unixfs.Some?)
      ensures ok ==> View() == ContentTables.Unpin(old(View()), c)
      ensures !ok ==> Database() == old(Database())
    {
      var n := NormalizeCid(c);
      var found := FindBlock(n);
      if found == None {
        NothingToUnpin(Database(), n);
        return true;
      }
      RowOf(Database(), found.value);
      ok := DeleteRows(found.value);
    }

    /** The deletions of Unpin for a block that exists. */
    method DeleteRows(id: Id) returns (ok: bool)
      requires Valid() && id in blocks
      modifies this
      ensures ok ==> RemovesRow(old(Database()), id, Database()) && Valid()
      ensures ok ==> View() == ContentTables.Unpin(old(View()), old(blocks[id].cid))
      ensures !ok ==> Database() == old(Database())
      ensures ok <==> !(enforceForeignKeys && InfoOf(old(Database()), id).unixfs.Some?)
    {
      ghost var before := Database();
      var savedLinks, savedUnixfs := links, unixfs;
      if id in unixfs {
        unixfs := unixfs[id := unixfs[id].(deleted := true)];
      }
      links := set l | l in links && l.child != id && l.parent != Some(id);
      if enforceForeignKeys && id in unixfs {
        links, unixfs := savedLinks, savedUnixfs;
        return false;
      }
      blocks := blocks - {id};
      assert RemovesRow(before, id, Database());
      RemoveBlockRow(before, id, Database());
      ok := true;
    }

    method MarkBlockReady(c: Cid, ready: bool) returns (ok: bool)
      requires Valid()
      modifies this
      ensures Valid()
      ensures ok <==> ContentTables.MarkBlockReady(old(View()), c, ready).Some?
      ensures ok ==> View() == ContentTables.MarkBlockReady(old(View()), c, ready).value
      ensures !ok ==> Database() == old(Database())
    {
      var found := FindBlock(NormalizeCid(c));
      ok := found.Some?;
      if ok {
        ghost var before := Database();
        RowOf(before, found.value);
        blocks := blocks[found.value := blocks[found.value].(ready := ready)];
        UpdateBlockRow(before, found.value, blocks[found.value], Database());
      }
    }

    method SetLastAnnouncement(cids: seq<Cid>, now: int) returns (ok: bool)
      requires Valid()
      modifies this
      ensures Valid()
      ensures ok <==> ContentTables.SetLastAnnouncement(old(View()), cids, now).Some?
      ensures ok ==> View() == ContentTables.SetLastAnnouncement(old(View()), cids, now).value
      ensures !ok ==> Database() == old(Database())
    {
      ghost var t := View();
      ghost var saved := Database();
      var savedBlocks := blocks;
      ok := true;
      for k := 0 to |cids|
        invariant Valid() && ok && ContentTables.SetLastAnnouncement(t, cids[..k], now) == Some(View())
        invariant nextId == saved.nextId && links == saved.links && unixfs == saved.unixfs
      {
        assert cids[..k + 1][..k] == cids[..k];
        var found := FindBlock(NormalizeCid(cids[k]));
        if found.Some? {
          RowOf(Database(), found.value);
        }
        if found == None || !blocks[found.value].ready {
          AnnouncementFailsEarly(t, cids, k + 1, now);
          blocks := savedBlocks;
          return false;
        }
        ghost var before := Database();
        blocks := blocks[found.value := blocks[found.value].(last := Some(now))];
        UpdateBlockRow(before, found.value, blocks[found.value], Database());
      }
      assert cids[..|cids|] == cids;
    }

    /** The rows of a query in link order; rows with equal index come in any order. */
    method OrderByIndex(selected: set<LinkRow>) returns (rows: seq<LinkRow>)
      ensures Distinct(rows) && Elems(rows) == selected
      ensures forall i, j :: 0 <= i < j < |rows| ==> rows[i].index <= rows[j].index
    {
      var todo := selected;
      rows := [];
      while todo != {}
        invariant todo !! Elems(rows) && todo + Elems(rows) == selected && Distinct(rows)
        invariant forall i, j :: 0 <= i < j < |rows| ==> rows[i].index <= rows[j].index
        invariant forall r, l :: r in rows && l in todo ==> r.index <= l.index
      {
        LeastIndex(todo);
        var row :| row in todo && forall l :: l in todo ==> row.index <= l.index;
        assert row !in Elems(rows);
        assert Elems(rows + [row]) == Elems(rows) + {row};
        todo := todo - {row};
        rows := rows + [row];
      }
    }

    /** SELECT of the ready children of a block in link order, optionally limited. */
    method BlockChildren(c: Cid, max: Option<nat>) returns (children: seq<Cid>)
      requires Valid()
      ensures exists rows :: ListsChildren(View(), NormalizeCid(c), rows) &&
                children == ChildCids(rows)[..if max.Some? && max.value < |rows| then max.value else |rows|]
    {
      var n := NormalizeCid(c);
      var found := FindBlock(n);
      var rows := OrderByIndex(
        if found == None then {} else set l | l in links && l.parent == found && blocks[l.child].ready);
      ListingOfRows(Database(), n, found, rows);
      children := ChildrenOfRows(rows);
      if max.Some? && max.value < |children| {
        children := children[..max.value];
      }
    }

    /** The CIDs at the other end of the link rows. */
    method ChildrenOfRows(rows: seq<LinkRow>) returns (children: seq<Cid>)
      requires Valid() && forall l :: l in rows ==> l in links
      ensures children == ChildCids(CidLinkSeq(Database(), rows))
    {
      children := [];
      for i := 0 to |rows|
        invariant |children| == i && forall k :: 0 <= k < i ==> children[k] == blocks[rows[k].child].cid
      {
        children := children + [blocks[rows[i].child].cid];
      }
    }

    /** Rows oldest announcement first (NULL first); rows of equal age come in any order. */
    method OrderByAge(selected: set<Id>) returns (ids: seq<Id>)
      requires selected <= blocks.Keys
      ensures Distinct(ids) && Elems(ids) == selected
      ensures forall i, j :: 0 <= i < j < |ids| ==>
                ids[i] in blocks && ids[j] in blocks && NoLater(blocks[ids[i]].last, blocks[ids[j]].last)
    {
      var todo := selected;
      ids := [];
      while todo != {}
        invariant todo !! Elems(ids) && todo + Elems(ids) == selected && Distinct(ids)
        invariant forall i :: i in ids ==> i in blocks
        invariant forall i, j :: 0 <= i < j < |ids| ==> NoLater(blocks[ids[i]].last, blocks[ids[j]].last)
        invariant forall i, l :: i in ids && l in todo ==> NoLater(blocks[i].last, blocks[l].last)
      {
        OldestRow(todo, blocks);
        var id := NextOldest(todo);
        assert id !in Elems(ids);
        assert Elems(ids + [id]) == Elems(ids) + {id};
        todo := todo - {id};
        ids := ids + [id];
      }
    }

    method NextOldest(todo: set<Id>) returns (id: Id)
      requires todo <= blocks.Keys && todo != {}
      ensures id in todo && forall y :: y in todo ==> NoLater(blocks[id].last, blocks[y].last)
    {
      OldestRow(todo, blocks);
      id :| id in todo && forall y :: y in todo ==> NoLater(blocks[id].last, blocks[y].last);
    }

    /** The oldest ready blocks not announced since the cutoff; a block that was never announced is
        reported with the epoch as its time. */
    method ProvideCIDs(since: int, limit: int) returns (cids: seq<PinnedCid>)
      requires Valid()
      ensures ListsOldest(View(), since, limit, CidsOfPinned(cids))
      ensures forall p :: p in cids ==> p.cid in View().blocks && Normalized(p.cid)
      ensures forall p :: p in cids ==>
                p.last == match View().blocks[p.cid].last case None => 0 case Some(time) => time
    {
      var ids := OrderByAge(set i | i in blocks && blocks[i].ready && Before(blocks[i].last, since));
      StaleListing(Database(), since, limit, ids);
      assert forall i :: i in ids ==> i in Elems(ids);
      ids := ids[..Limited(|ids|, limit)];
      cids := PinnedOf(ids);
      PinnedRows(Database(), ids, cids);
    }

    method PinnedOf(ids: seq<Id>) returns (cids: seq<PinnedCid>)
      requires forall i :: i in ids ==> i in blocks
      ensures CidsOfPinned(cids) == RowCids(Database(), ids)
      ensures forall m :: 0 <= m < |ids| ==> cids[m] == PinnedCid(blocks[ids[m]].cid, TimeOr0(blocks[ids[m]].last))
    {
      cids := [];
      for k := 0 to |ids|
        invariant |cids| == k
        invariant forall m :: 0 <= m < k ==> cids[m] == PinnedCid(blocks[ids[m]].cid, TimeOr0(blocks[ids[m]].last))
      {
        var row := blocks[ids[k]];
        cids := cids + [PinnedCid(row.cid, TimeOr0(row.last))];
      }
    }

    /** Totals of ready blocks; pending is what an unlimited ProvideCIDs would return. */
    method CountPinned(since: int) returns (stats: Stats)
      requires Valid()
      ensures stats.total == |ReadyCids(View())| && stats.announced == |AnnouncedSince(View(), since)|
      ensures stats.pending == |Stale(View(), since)|
    {
      var total := ReadyIds(blocks);
      var announced := AnnouncedIds(blocks, since);
      stats := Stats(|total|, |announced|, |total| - |announced|);
      ReadyCount(Database());
      AnnouncedCount(Database(), since);
      PendingIsStale(View(), since);
    }
  }

  lemma {:induction false} AddLinksFailsEarly(links: set<Link>, parent: Cid, children: seq<Cid>, i: nat, n: nat)
    requires i <= n <= |children| && AddLinks(links, parent, children, i) == None
    ensures AddLinks(links, parent, children, n) == None
  {
    if i < n {
      AddLinksFailsEarly(links, parent, children, i, n - 1);
    }
  }

  lemma {:induction false} PinAllFailsEarly(t: Tables, bs: seq<PinnedBlock>, i: nat)
    requires i <= |bs| && PinAllInTx(t, bs[..i]) == None
    ensures PinAllInTx(t, bs) == None
  {
    if i == |bs| {
      assert bs[..i] == bs;
    } else {
      assert bs[..|bs| - 1][..i] == bs[..i];
      PinAllFailsEarly(t, bs[..|bs| - 1], i);
    }
  }

  lemma PinnedRows(db: Db, ids: seq<Id>, cids: seq<PinnedCid>)
    requires ValidDb(db) && |cids| == |ids| && forall i :: i in ids ==> i in db.blocks
    requires forall i :: i in db.blocks ==> Normalized(db.blocks[i].cid)
    requires forall m :: 0 <= m < |ids| ==> cids[m] == PinnedCid(db.blocks[ids[m]].cid, TimeOr0(db.blocks[ids[m]].last))
    ensures forall p :: p in cids ==> p.cid in TablesOf(db).blocks && Normalized(p.cid)
    ensures forall p :: p in cids ==> p.last == TimeOr0(AnnouncedAt(TablesOf(db), p.cid))
  {
  }

  /** One more block of a batch; its children are among the placeholders, and no row is lost. */
  lemma PinAllStep(t: Tables, bs: seq<PinnedBlock>, i: nat)
    requires i < |bs| && PinAllInTx(t, bs[..i]).Some?
    ensures PinAllInTx(t, bs[..i + 1]) == PinInTx(PinAllInTx(t, bs[..i]).value, bs[i])
    ensures forall c :: c in bs[i].links ==> c in ChildrenOf(bs)
    ensures PinAllInTx(t, bs[..i + 1]).Some? ==>
              PinAllInTx(t, bs[..i]).value.blocks.Keys <= PinAllInTx(t, bs[..i + 1]).value.blocks.Keys
  {
    assert bs[..i + 1][..i] == bs[..i] && bs[i] in bs;
  }

  lemma {:induction false} AnnouncementFailsEarly(t: Tables, cs: seq<Cid>, i: nat, now: int)
    requires i <= |cs| && SetLastAnnouncement(t, cs[..i], now) == None
    ensures SetLastAnnouncement(t, cs, now) == None
  {
    if i == |cs| {
      assert cs[..i] == cs;
    } else {
      assert cs[..|cs| - 1][..i] == cs[..i];
      AnnouncementFailsEarly(t, cs[..|cs| - 1], i, now);
    }
  }

  lemma EnsureOne(blocks: map<Cid, BlockInfo>, c: Cid)
    ensures EnsureBlocks(blocks, {c}) == if c in blocks then blocks else blocks[c := PLACEHOLDER]
  {
  }

  /** The block upsert and the UnixFS upsert together. */
  lemma UpsertInTwo(was: map<Cid, BlockInfo>, b: PinnedBlock)
    ensures var row := if b.cid in was then was[b.cid] else PLACEHOLDER;
            var once := was[b.cid := row.(size := b.size, ready := true)];
            UpsertBlock(was, b) ==
            if b.unixfs.Some? then once[b.cid := once[b.cid].(unixfs := b.unixfs)] else once
  {
  }

  lemma NothingToUnpin(db: Db, n: Cid)
    requires ValidDb(db) && n !in BlocksByCid(db) && Normalized(n)
    ensures Unpin(TablesOf(db), n) == TablesOf(db)
  {
  }

  lemma ReadyRowsMatch(db: Db, n: Cid, found: Option<Id>)
    requires ValidDb(db) && (found.Some? <==> n in BlocksByCid(db))
    requires found.Some? ==> found.value in db.blocks && db.blocks[found.value].cid == n
    ensures ReadyLinksFrom(TablesOf(db), n) ==
            if found == None then {} else
              set l | l in db.links && l.parent == found && db.blocks[l.child].ready :: CidLink(db.blocks, l)
  {
  }

  ghost function CidLinkSeq(db: Db, rows: seq<LinkRow>): (r: seq<Link>)
    requires ValidDb(db) && forall l :: l in rows ==> l in db.links
    ensures |r| == |rows| && forall i :: 0 <= i < |rows| ==> r[i] == CidLink(db.blocks, rows[i])
  {
    seq(|rows|, i requires 0 <= i < |rows| => CidLink(db.blocks, rows[i]))
  }

  /** The ready rows of a parent. */
  function ReadyRowSet(db: Db, found: Option<Id>): set<LinkRow>
    requires forall l :: l in db.links ==> l.child in db.blocks
  {
    if found == None then {} else set l | l in db.links && l.parent == found && db.blocks[l.child].ready
  }

  lemma ListingOfRows(db: Db, n: Cid, found: Option<Id>, rows: seq<LinkRow>)
    requires ValidDb(db) && (found.Some? <==> n in BlocksByCid(db))
    requires found.Some? ==> found.value in db.blocks && db.blocks[found.value].cid == n
    requires Distinct(rows) && forall i, j :: 0 <= i < j < |rows| ==> rows[i].index <= rows[j].index
    requires Elems(rows) == ReadyRowSet(db, found)
    ensures forall l :: l in rows ==> l in db.links
    ensures ListsChildren(TablesOf(db), n, CidLinkSeq(db, rows))
  {
    forall l | l in rows ensures l in db.links { assert l in Elems(rows); }
    var ls := CidLinkSeq(db, rows);
    forall i, j | 0 <= i < j < |ls| ensures ls[i] != ls[j] {
      LinkOf(db, rows[i]);
      assert rows[i] != rows[j];
    }
    ListingHasRows(db, n, found, rows);
  }

  lemma ListingHasRows(db: Db, n: Cid, found: Option<Id>, rows: seq<LinkRow>)
    requires ValidDb(db) && (found.Some? <==> n in BlocksByCid(db))
    requires found.Some? ==> found.value in db.blocks && db.blocks[found.value].cid == n
    requires Elems(rows) == ReadyRowSet(db, found) && forall l :: l in rows ==> l in db.links
    ensures Elems(CidLinkSeq(db, rows)) == ReadyLinksFrom(TablesOf(db), n)
  {
    ReadyRowsMatch(db, n, found);
    forall x | x in CidLinkSeq(db, rows) ensures x in ReadyLinksFrom(TablesOf(db), n) {
      ListedLinkHasRow(db, n, found, rows, x);
    }
    forall x | x in ReadyLinksFrom(TablesOf(db), n) ensures x in CidLinkSeq(db, rows) {
      var l :| l in Elems(rows) && CidLink(db.blocks, l) == x;
      LinkIsListed(db, rows, l);
    }
  }

  lemma ListedLinkHasRow(db: Db, n: Cid, found: Option<Id>, rows: seq<LinkRow>, x: Link)
    requires ValidDb(db) && (found.Some? <==> n in BlocksByCid(db))
    requires found.Some? ==> found.value in db.blocks && db.blocks[found.value].cid == n
    requires Elems(rows) == ReadyRowSet(db, found) && forall l :: l in rows ==> l in db.links
    requires x in CidLinkSeq(db, rows)
    ensures x in ReadyLinksFrom(TablesOf(db), n)
  {
    ReadyRowsMatch(db, n, found);
    var i :| 0 <= i < |rows| && CidLinkSeq(db, rows)[i] == x;
    assert rows[i] in Elems(rows);
  }

  lemma LinkIsListed(db: Db, rows: seq<LinkRow>, l: LinkRow)
    requires ValidDb(db) && (forall r :: r in rows ==> r in db.links) && l in rows
    ensures CidLink(db.blocks, l) in CidLinkSeq(db, rows)
  {
    var i :| 0 <= i < |rows| && rows[i] == l;
    assert CidLinkSeq(db, rows)[i] == CidLink(db.blocks, l);
  }

  function CidsOfPinned(ps: seq<PinnedCid>): (r: seq<Cid>)
    ensures |r| == |ps| && forall i :: 0 <= i < |ps| ==> r[i] == ps[i].cid
  {
    seq(|ps|, i requires 0 <= i < |ps| => ps[i].cid)
  }

  function RowCids(db: Db, ids: seq<Id>): (r: seq<Cid>)
    requires forall i :: i in ids ==> i in db.blocks
    ensures |r| == |ids| && forall k :: 0 <= k < |ids| ==> r[k] == db.blocks[ids[k]].cid
  {
    seq(|ids|, k requires 0 <= k < |ids| => db.blocks[ids[k]].cid)
  }

  /** Rows of a query and the CIDs they stand for. */
  lemma {:induction false} CidImageSize(db: Db, ids: set<Id>)
    requires ValidDb(db) && ids <= db.blocks.Keys
    ensures |set i | i in ids :: db.blocks[i].cid| == |ids|
  {
    if ids != {} {
      var a :| a in ids;
      CidImageSize(db, ids - {a});
      assert (set i | i in ids :: db.blocks[i].cid) ==
             (set i | i in ids - {a} :: db.blocks[i].cid) + {db.blocks[a].cid};
    }
  }

  lemma ReadyCount(db: Db)
    requires ValidDb(db)
    ensures |ReadyCids(TablesOf(db))| == |ReadyIds(db.blocks)|
  {
    var ids := ReadyIds(db.blocks);
    CidImageSize(db, ids);
    forall c ensures c in ReadyCids(TablesOf(db)) <==> c in set i | i in ids :: db.blocks[i].cid {
      if c in CidSet(db) {
        RowOf(db, IdOf(db, c));
      }
    }
    assert ReadyCids(TablesOf(db)) == set i | i in ids :: db.blocks[i].cid;
  }

  lemma AnnouncedCount(db: Db, since: int)
    requires ValidDb(db)
    ensures |AnnouncedSince(TablesOf(db), since)| == |AnnouncedIds(db.blocks, since)|
  {
    var ids := AnnouncedIds(db.blocks, since);
    CidImageSize(db, ids);
    forall c ensures c in AnnouncedSince(TablesOf(db), since) <==> c in set i | i in ids :: db.blocks[i].cid {
      if c in CidSet(db) {
        RowOf(db, IdOf(db, c));
      }
    }
    assert AnnouncedSince(TablesOf(db), since) == set i | i in ids :: db.blocks[i].cid;
  }

  /** The ready blocks are the announced ones and the ones an unlimited ProvideCIDs would return. */
  lemma PendingIsStale(t: Tables, since: int)
    ensures |ReadyCids(t)| - |AnnouncedSince(t, since)| == |Stale(t, since)|
  {
    assert ReadyCids(t) == AnnouncedSince(t, since) + Stale(t, since);
    assert AnnouncedSince(t, since) !! Stale(t, since);
  }

  /** Stale rows listed by age are the stale CIDs listed by age. */
  lemma StaleListing(db: Db, since: int, limit: int, ids: seq<Id>)
    requires ValidDb(db) && Distinct(ids)
    requires Elems(ids) == set i | i in db.blocks && db.blocks[i].ready && Before(db.blocks[i].last, since)
    requires forall i, j :: 0 <= i < j < |ids| ==>
               ids[i] in db.blocks && ids[j] in db.blocks && NoLater(db.blocks[ids[i]].last, db.blocks[ids[j]].last)
    ensures forall i :: i in ids ==> i in db.blocks
    ensures ListsOldest(TablesOf(db), since, limit, RowCids(db, ids[..Limited(|ids|, limit)]))
  {
    var t := TablesOf(db);
    StaleRows(db, since, ids);
    var all := RowCids(db, ids);
    assert Distinct(all);
    DistinctSize(all);
    var n := Limited(|ids|, limit);
    var cs := RowCids(db, ids[..n]);
    assert cs == all[..n];
    forall c, d | c in cs && d in Stale(t, since) && d !in cs ensures NoLater(AnnouncedAt(t, c), AnnouncedAt(t, d)) {
      assert d in Elems(all);
      FirstAreOlder(all, n, c, d);
    }
  }

  /** An element of the first n comes before one that is not among them. */
  lemma FirstAreOlder<T>(s: seq<T>, n: nat, c: T, d: T)
    requires n <= |s| && c in s[..n] && d in s && d !in s[..n]
    ensures exists m, k :: 0 <= m < k < |s| && s[m] == c && s[k] == d
  {
    var m :| 0 <= m < n && s[..n][m] == c;
    var k :| 0 <= k < |s| && s[k] == d;
    assert forall i :: 0 <= i < n ==> s[i] in s[..n];
  }

  lemma StaleRows(db: Db, since: int, ids: seq<Id>)
    requires ValidDb(db)
    requires Elems(ids) == set i | i in db.blocks && db.blocks[i].ready && Before(db.blocks[i].last, since)
    ensures forall i :: i in ids ==>
              i in db.blocks && AnnouncedAt(TablesOf(db), db.blocks[i].cid) == db.blocks[i].last
    ensures Elems(RowCids(db, ids)) == Stale(TablesOf(db), since)
  {
    var t := TablesOf(db);
    forall i | i in ids
      ensures i in db.blocks && db.blocks[i].cid in Stale(t, since)
      ensures AnnouncedAt(t, db.blocks[i].cid) == db.blocks[i].last
    {
      assert i in Elems(ids);
      RowOf(db, i);
    }
    var all := RowCids(db, ids);
    forall c | c in Stale(t, since) ensures c in all {
      var i := IdOf(db, c);
      RowOf(db, i);
      assert i in Elems(ids);
      var k :| 0 <= k < |ids| && ids[k] == i;
      assert all[k] == c;
    }
  }
}
