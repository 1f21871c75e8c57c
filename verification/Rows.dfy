/** The database as rows with auto-increment ids, and the CID-keyed tables they stand for. */
module Rows {
  import opened Wrappers
  import opened Cids
  import opened ContentTables

  type Id = nat

  datatype BlockRow = BlockRow(cid: Cid, size: nat, last: Option<int>, ready: bool)

  datatype LinkRow = LinkRow(parent: Option<Id>, child: Id, index: nat)

  /** Deleting UnixFS metadata is a soft delete: the row stays, with its block id. */
  datatype UnixFSRow = UnixFSRow(meta: UnixFSMeta, deleted: bool)

  datatype Db = Db(nextId: Id, blocks: map<Id, BlockRow>, links: set<LinkRow>, unixfs: map<Id, UnixFSRow>)

  /** CIDs are unique, ids are never handed out twice, every link row and every live UnixFS row has its
      blocks, and a soft-deleted UnixFS row belongs to a block that is gone. */
  ghost predicate ValidDb(db: Db) {
    && (forall i, j :: i in db.blocks && j in db.blocks && db.blocks[i].cid == db.blocks[j].cid ==> i == j)
    && (forall i :: i in db.blocks ==> i < db.nextId)
    && (forall i :: i in db.unixfs ==> i < db.nextId && (i in db.blocks <==> !db.unixfs[i].deleted))
    && (forall l :: l in db.links ==> l.child in db.blocks && (l.parent.Some? ==> l.parent.value in db.blocks))
  }

  function CidSet(db: Db): set<Cid> {
    set i | i in db.blocks :: db.blocks[i].cid
  }

  ghost function IdOf(db: Db, c: Cid): (i: Id)
    requires c in CidSet(db)
    ensures i in db.blocks && db.blocks[i].cid == c
  {
    var i :| i in db.blocks && db.blocks[i].cid == c; i
  }

  function InfoOf(db: Db, i: Id): BlockInfo
    requires i in db.blocks
  {
    var r := db.blocks[i];
    var meta := if i in db.unixfs && !db.unixfs[i].deleted then Some(db.unixfs[i].meta) else None;
    BlockInfo(r.size, r.last, r.ready, meta)
  }

  function CidLink(blocks: map<Id, BlockRow>, l: LinkRow): Link
    requires l.child in blocks && (l.parent.Some? ==> l.parent.value in blocks)
  {
    Link(if l.parent.Some? then Some(blocks[l.parent.value].cid) else None, blocks[l.child].cid, l.index)
  }

  ghost function CidLinks(db: Db): set<Link>
    requires ValidDb(db)
  {
    set l | l in db.links :: CidLink(db.blocks, l)
  }

  ghost function BlocksByCid(db: Db): map<Cid, BlockInfo> {
    map c | c in CidSet(db) :: InfoOf(db, IdOf(db, c))
  }

  /** The rows without their ids. */
  ghost function TablesOf(db: Db): Tables
    requires ValidDb(db)
  {
    Tables(BlocksByCid(db), CidLinks(db))
  }

  lemma RowOf(db: Db, i: Id)
    requires ValidDb(db) && i in db.blocks
    ensures db.blocks[i].cid in CidSet(db) && IdOf(db, db.blocks[i].cid) == i
    ensures db.blocks[i].cid in BlocksByCid(db) && BlocksByCid(db)[db.blocks[i].cid] == InfoOf(db, i)
  {
  }

  lemma LinkOf(db: Db, l: LinkRow)
    requires ValidDb(db)
    requires l.child in db.blocks && (l.parent.Some? ==> l.parent.value in db.blocks)
    ensures l in db.links <==> CidLink(db.blocks, l) in CidLinks(db)
  {
  }

  // ---- single-row changes ----------------------------------------------------------------------

  lemma SameCidLinks(db: Db, after: Db)
    requires ValidDb(db) && ValidDb(after) && after.links == db.links
    requires forall i :: i in db.blocks ==> i in after.blocks && after.blocks[i].cid == db.blocks[i].cid
    ensures CidLinks(after) == CidLinks(db)
  {
    forall l | l in db.links ensures CidLink(after.blocks, l) == CidLink(db.blocks, l) {}
  }

  lemma InsertKeepsValid(db: Db, row: BlockRow, after: Db)
    requires ValidDb(db) && row.cid !in CidSet(db)
    requires after == db.(nextId := db.nextId + 1, blocks := db.blocks[db.nextId := row])
    ensures ValidDb(after)
  {
    assert forall i :: i in db.blocks ==> db.blocks[i].cid in CidSet(db);
  }

  /** The tables by CID are known from the rows. */
  lemma ByCid(db: Db, wanted: map<Cid, BlockInfo>)
    requires ValidDb(db)
    requires forall i :: i in db.blocks ==> db.blocks[i].cid in wanted && wanted[db.blocks[i].cid] == InfoOf(db, i)
    requires wanted.Keys <= CidSet(db)
    ensures BlocksByCid(db) == wanted
  {
  }

  lemma InsertCids(db: Db, row: BlockRow, after: Db)
    requires ValidDb(db) && db.nextId !in db.blocks
    requires after == db.(nextId := db.nextId + 1, blocks := db.blocks[db.nextId := row])
    ensures CidSet(after) == CidSet(db) + {row.cid}
  {
    assert after.blocks[db.nextId].cid == row.cid;
    forall c | c in CidSet(db) ensures c in CidSet(after) {
      assert after.blocks[IdOf(db, c)].cid == c;
    }
  }

  lemma InsertBlockRow(db: Db, row: BlockRow, after: Db)
    requires ValidDb(db) && row.cid !in CidSet(db)
    requires after == db.(nextId := db.nextId + 1, blocks := db.blocks[db.nextId := row])
    ensures ValidDb(after)
    ensures TablesOf(after) ==
            TablesOf(db).(blocks := BlocksByCid(db)[row.cid := BlockInfo(row.size, row.last, row.ready, None)])
  {
    InsertKeepsValid(db, row, after);
    SameCidLinks(db, after);
    InsertCids(db, row, after);
    InsertByCid(db, row, after);
  }

  lemma InsertByCid(db: Db, row: BlockRow, after: Db)
    requires ValidDb(db) && ValidDb(after) && row.cid !in CidSet(db) && CidSet(after) == CidSet(db) + {row.cid}
    requires after == db.(nextId := db.nextId + 1, blocks := db.blocks[db.nextId := row])
    ensures BlocksByCid(after) == BlocksByCid(db)[row.cid := BlockInfo(row.size, row.last, row.ready, None)]
  {
    var wanted := BlocksByCid(db)[row.cid := BlockInfo(row.size, row.last, row.ready, None)];
    forall i | i in after.blocks
      ensures after.blocks[i].cid in wanted && wanted[after.blocks[i].cid] == InfoOf(after, i)
    {
      if i in db.blocks {
        InsertKeepsRow(db, row, after, i);
      }
    }
    ByCid(after, wanted);
  }

  lemma InsertKeepsRow(db: Db, row: BlockRow, after: Db, i: Id)
    requires ValidDb(db) && row.cid !in CidSet(db) && i in db.blocks
    requires after == db.(nextId := db.nextId + 1, blocks := db.blocks[db.nextId := row])
    ensures after.blocks[i] == db.blocks[i] && db.blocks[i].cid != row.cid
    ensures db.blocks[i].cid in BlocksByCid(db) && BlocksByCid(db)[db.blocks[i].cid] == InfoOf(after, i)
  {
    RowOf(db, i);
  }

  /** Changes to one block row and its UnixFS row that keep the CID. */
  ghost predicate UpdatesRow(db: Db, i: Id, row: BlockRow, after: Db) {
    && i in db.blocks && row.cid == db.blocks[i].cid
    && after.nextId == db.nextId && after.links == db.links && after.blocks == db.blocks[i := row]
    && after.unixfs.Keys <= db.unixfs.Keys + {i}
    && (forall j :: j in db.unixfs ==> j in after.unixfs && (j != i ==> after.unixfs[j] == db.unixfs[j]))
    && (i in after.unixfs ==> !after.unixfs[i].deleted)
  }

  lemma UpdateKeepsValid(db: Db, i: Id, row: BlockRow, after: Db)
    requires ValidDb(db) && UpdatesRow(db, i, row, after)
    ensures ValidDb(after)
  {
  }

  lemma UpdateBlockRow(db: Db, i: Id, row: BlockRow, after: Db)
    requires ValidDb(db) && UpdatesRow(db, i, row, after)
    ensures ValidDb(after)
    ensures TablesOf(after) == TablesOf(db).(blocks := BlocksByCid(db)[row.cid := InfoOf(after, i)])
  {
    UpdateKeepsValid(db, i, row, after);
    SameCidLinks(db, after);
    UpdateKeepsCids(db, i, row, after);
    forall j | j in db.blocks && j != i
      ensures db.blocks[j].cid != row.cid && BlocksByCid(db)[db.blocks[j].cid] == InfoOf(after, j)
    {
      RowOf(db, j);
    }
    ByCid(after, BlocksByCid(db)[row.cid := InfoOf(after, i)]);
  }

  lemma UpdateKeepsCids(db: Db, i: Id, row: BlockRow, after: Db)
    requires ValidDb(db) && UpdatesRow(db, i, row, after)
    ensures CidSet(after) == CidSet(db) && row.cid in CidSet(db)
  {
    forall c | c in CidSet(db) ensures c in CidSet(after) {
      var j :| j in db.blocks && db.blocks[j].cid == c;
      assert after.blocks[j].cid == c;
    }
    forall c | c in CidSet(after) ensures c in CidSet(db) {
      var j :| j in after.blocks && after.blocks[j].cid == c;
      assert db.blocks[j].cid == c;
    }
    assert db.blocks[i].cid == row.cid;
  }

  lemma InsertLinkRow(db: Db, l: LinkRow, after: Db)
    requires ValidDb(db) && l.child in db.blocks && (l.parent.Some? ==> l.parent.value in db.blocks)
    requires after == db.(links := db.links + {l})
    ensures ValidDb(after)
    ensures TablesOf(after) == TablesOf(db).(links := CidLinks(db) + {CidLink(db.blocks, l)})
  {
    assert CidSet(after) == CidSet(db);
    SameBlocks(db, after);
    assert CidLinks(after) == CidLinks(db) + {CidLink(db.blocks, l)};
  }

  lemma SameBlocks(db: Db, after: Db)
    requires ValidDb(db) && ValidDb(after) && after.blocks == db.blocks && after.unixfs == db.unixfs
    ensures BlocksByCid(after) == BlocksByCid(db)
  {
  }

  function OrphanRows(links: set<LinkRow>, child: Id): set<LinkRow> {
    set l | l in links && l.parent == None && l.child == child
  }

  function AdoptedRows(links: set<LinkRow>, parent: Id, child: Id): set<LinkRow> {
    set l | l in OrphanRows(links, child) :: LinkRow(Some(parent), child, l.index)
  }

  lemma OrphansMatch(db: Db, child: Id, l: LinkRow)
    requires ValidDb(db) && child in db.blocks && l in db.links
    ensures l in OrphanRows(db.links, child) <==> CidLink(db.blocks, l) in OrphansOf(CidLinks(db), db.blocks[child].cid)
  {
    LinkOf(db, l);
  }

  /** The CID-keyed rows that the orphans of a child become. */
  function AdoptedImage(db: Db, parent: Id, child: Id): set<Link>
    requires parent in db.blocks && child in db.blocks
  {
    set l | l in OrphanRows(db.links, child) :: Link(Some(db.blocks[parent].cid), db.blocks[child].cid, l.index)
  }

  lemma AdoptedMatch(db: Db, parent: Id, child: Id)
    requires ValidDb(db) && parent in db.blocks && child in db.blocks
    ensures AdoptedBy(CidLinks(db), db.blocks[parent].cid, db.blocks[child].cid) == AdoptedImage(db, parent, child)
  {
    var p, c := db.blocks[parent].cid, db.blocks[child].cid;
    forall x | x in AdoptedBy(CidLinks(db), p, c) ensures x in AdoptedImage(db, parent, child) {
      var o :| o in OrphansOf(CidLinks(db), c) && x == Link(Some(p), c, o.index);
      var l :| l in db.links && CidLink(db.blocks, l) == o;
      OrphansMatch(db, child, l);
    }
    forall x | x in AdoptedImage(db, parent, child) ensures x in AdoptedBy(CidLinks(db), p, c) {
      var l :| l in OrphanRows(db.links, child) && x == Link(Some(p), c, l.index);
      OrphansMatch(db, child, l);
    }
  }

  /** An adopted row exists already on ids exactly if it does on CIDs. */
  lemma AdoptionClashes(db: Db, parent: Id, child: Id)
    requires ValidDb(db) && parent in db.blocks && child in db.blocks
    ensures AdoptedRows(db.links, parent, child) !! db.links <==> AdoptedImage(db, parent, child) !! CidLinks(db)
  {
    var p, c := db.blocks[parent].cid, db.blocks[child].cid;
    forall l | l in OrphanRows(db.links, child)
      ensures LinkRow(Some(parent), child, l.index) in db.links <==> Link(Some(p), c, l.index) in CidLinks(db)
    {
      LinkOf(db, LinkRow(Some(parent), child, l.index));
    }
    if !(AdoptedRows(db.links, parent, child) !! db.links) {
      var r :| r in AdoptedRows(db.links, parent, child) && r in db.links;
      assert CidLink(db.blocks, r) in AdoptedImage(db, parent, child) && CidLink(db.blocks, r) in CidLinks(db);
    }
    if !(AdoptedImage(db, parent, child) !! CidLinks(db)) {
      var x :| x in AdoptedImage(db, parent, child) && x in CidLinks(db);
      var l :| l in OrphanRows(db.links, child) && x == Link(Some(p), c, l.index);
      assert LinkRow(Some(parent), child, l.index) in AdoptedRows(db.links, parent, child);
    }
  }

  lemma OrphanRowsAre(db: Db, parent: Id, child: Id)
    requires ValidDb(db) && parent in db.blocks && child in db.blocks
    ensures var p, c := db.blocks[parent].cid, db.blocks[child].cid;
            && (forall l :: l in db.links ==>
                  (l in OrphanRows(db.links, child) <==> CidLink(db.blocks, l) in OrphansOf(CidLinks(db), c)))
            && (AdoptedRows(db.links, parent, child) !! db.links <==> AdoptedBy(CidLinks(db), p, c) !! CidLinks(db))
            && AdoptedBy(CidLinks(db), p, c) == AdoptedImage(db, parent, child)
  {
    forall l | l in db.links
      ensures l in OrphanRows(db.links, child) <==>
              CidLink(db.blocks, l) in OrphansOf(CidLinks(db), db.blocks[child].cid)
    {
      OrphansMatch(db, child, l);
    }
    AdoptedMatch(db, parent, child);
    AdoptionClashes(db, parent, child);
  }

  /** Gives the orphans of the child a parent. */
  ghost predicate Adopts(db: Db, parent: Id, child: Id, after: Db) {
    && parent in db.blocks && child in db.blocks
    && after == db.(links := db.links - OrphanRows(db.links, child) + AdoptedRows(db.links, parent, child))
  }

  function AdoptedLinks(links: set<Link>, p: Cid, c: Cid): set<Link> {
    links - OrphansOf(links, c) + AdoptedBy(links, p, c)
  }

  lemma AdoptedRowIsAdopted(db: Db, parent: Id, child: Id, after: Db, l: LinkRow)
    requires ValidDb(db) && ValidDb(after) && Adopts(db, parent, child, after) && l in after.links
    ensures CidLink(db.blocks, l) in AdoptedLinks(CidLinks(db), db.blocks[parent].cid, db.blocks[child].cid)
  {
    AdoptedMatch(db, parent, child);
    if l in db.links {
      OrphansMatch(db, child, l);
      LinkOf(db, l);
    }
  }

  lemma AdoptedLinkHasRow(db: Db, parent: Id, child: Id, after: Db, x: Link)
    requires ValidDb(db) && ValidDb(after) && Adopts(db, parent, child, after)
    requires x in AdoptedLinks(CidLinks(db), db.blocks[parent].cid, db.blocks[child].cid)
    ensures x in CidLinks(after)
  {
    AdoptedMatch(db, parent, child);
    if x in AdoptedImage(db, parent, child) {
      var l :| && l in OrphanRows(db.links, child)
               && x == Link(Some(db.blocks[parent].cid), db.blocks[child].cid, l.index);
      LinkOf(after, LinkRow(Some(parent), child, l.index));
    } else {
      var l :| l in db.links && x == CidLink(db.blocks, l);
      OrphansMatch(db, child, l);
      LinkOf(after, l);
    }
  }

  lemma AdoptRows(db: Db, parent: Id, child: Id, after: Db)
    requires ValidDb(db) && Adopts(db, parent, child, after)
    ensures ValidDb(after)
    ensures TablesOf(after) ==
            TablesOf(db).(links := AdoptedLinks(CidLinks(db), db.blocks[parent].cid, db.blocks[child].cid))
  {
    SameBlocks(db, after);
    forall x | x in CidLinks(after)
      ensures x in AdoptedLinks(CidLinks(db), db.blocks[parent].cid, db.blocks[child].cid)
    {
      var l :| l in after.links && x == CidLink(after.blocks, l);
      AdoptedRowIsAdopted(db, parent, child, after, l);
    }
    forall x | x in AdoptedLinks(CidLinks(db), db.blocks[parent].cid, db.blocks[child].cid)
      ensures x in CidLinks(after)
    {
      AdoptedLinkHasRow(db, parent, child, after, x);
    }
  }

  ghost predicate RemovesRow(db: Db, i: Id, after: Db) {
    && i in db.blocks && Normalized(db.blocks[i].cid)
    && after.nextId == db.nextId && after.blocks == db.blocks - {i}
    && after.links == (set l | l in db.links && l.child != i && l.parent != Some(i))
    && after.unixfs.Keys == db.unixfs.Keys
    && (forall j :: j in db.unixfs && j != i ==> after.unixfs[j] == db.unixfs[j])
    && (i in db.unixfs ==> after.unixfs[i].deleted)
  }

  lemma RemoveKeepsValid(db: Db, i: Id, after: Db)
    requires ValidDb(db) && RemovesRow(db, i, after)
    ensures ValidDb(after)
  {
  }

  lemma RemoveKeepsRow(db: Db, i: Id, after: Db, j: Id)
    requires ValidDb(db) && RemovesRow(db, i, after) && j in after.blocks
    ensures after.blocks[j] == db.blocks[j] && db.blocks[j].cid != db.blocks[i].cid
    ensures db.blocks[j].cid in BlocksByCid(db)
    ensures BlocksByCid(db)[db.blocks[j].cid] == InfoOf(after, j)
  {
    RowOf(db, j);
  }

  lemma RemoveCids(db: Db, i: Id, after: Db)
    requires ValidDb(db) && RemovesRow(db, i, after)
    ensures CidSet(db) - {db.blocks[i].cid} <= CidSet(after)
  {
    forall c | c in CidSet(db) && c != db.blocks[i].cid ensures c in CidSet(after) {
      assert after.blocks[IdOf(db, c)].cid == c;
    }
  }

  lemma RemoveBlocksByCid(db: Db, i: Id, after: Db)
    requires ValidDb(db) && ValidDb(after) && RemovesRow(db, i, after)
    ensures BlocksByCid(after) == BlocksByCid(db) - {db.blocks[i].cid}
  {
    forall j | j in after.blocks
      ensures db.blocks[j].cid != db.blocks[i].cid && db.blocks[j].cid in BlocksByCid(db)
      ensures BlocksByCid(db)[db.blocks[j].cid] == InfoOf(after, j)
    {
      RemoveKeepsRow(db, i, after, j);
    }
    RemoveCids(db, i, after);
    ByCid(after, BlocksByCid(db) - {db.blocks[i].cid});
  }

  lemma RemoveCidLinks(db: Db, i: Id, after: Db)
    requires ValidDb(db) && ValidDb(after) && RemovesRow(db, i, after)
    ensures CidLinks(after) ==
            set l | l in CidLinks(db) && l.child != db.blocks[i].cid && l.parent != Some(db.blocks[i].cid)
  {
    var c := db.blocks[i].cid;
    var wanted := set l | l in CidLinks(db) && l.child != c && l.parent != Some(c);
    forall x | x in CidLinks(after) ensures x in wanted {
      var l :| l in after.links && x == CidLink(after.blocks, l);
      assert CidLink(db.blocks, l) == x;
    }
    forall x | x in wanted ensures x in CidLinks(after) {
      var l :| l in db.links && x == CidLink(db.blocks, l);
      assert l in after.links && CidLink(after.blocks, l) == x;
    }
  }

  lemma RemoveBlockRow(db: Db, i: Id, after: Db)
    requires ValidDb(db) && RemovesRow(db, i, after)
    ensures ValidDb(after)
    ensures TablesOf(after) == Unpin(TablesOf(db), db.blocks[i].cid)
  {
    RemoveKeepsValid(db, i, after);
    RemoveBlocksByCid(db, i, after);
    RemoveCidLinks(db, i, after);
  }

  // ---- equal up to ids -------------------------------------------------------------------------

  /** r renames the ids of one database into those of the other, row by row. */
  ghost predicate Renames(r: map<Id, Id>, a: Db, b: Db)
    requires ValidDb(a) && ValidDb(b)
  {
    && r.Keys == a.blocks.Keys && r.Values == b.blocks.Keys
    && (forall i, j :: i in r && j in r && r[i] == r[j] ==> i == j)
    && (forall i :: i in r ==> b.blocks[r[i]] == a.blocks[i] && InfoOf(b, r[i]) == InfoOf(a, i))
    && (forall l :: l in a.links ==> RenameLink(r, l) in b.links)
    && (forall m :: m in b.links ==> exists l :: l in a.links && RenameLink(r, l) == m)
  }

  function RenameLink(r: map<Id, Id>, l: LinkRow): LinkRow {
    LinkRow(if l.parent.Some? && l.parent.value in r then Some(r[l.parent.value]) else None,
            if l.child in r then r[l.child] else l.child, l.index)
  }

  ghost function Renaming(a: Db, b: Db): map<Id, Id> {
    map i | i in a.blocks && a.blocks[i].cid in CidSet(b) :: IdOf(b, a.blocks[i].cid)
  }

  lemma RenamingOfRow(a: Db, b: Db, i: Id)
    requires ValidDb(a) && ValidDb(b) && BlocksByCid(a) == BlocksByCid(b) && i in a.blocks
    ensures var r := Renaming(a, b); i in r && b.blocks[r[i]] == a.blocks[i] && InfoOf(b, r[i]) == InfoOf(a, i)
  {
    RowOf(a, i);
    assert a.blocks[i].cid in BlocksByCid(b);
    RowOf(b, IdOf(b, a.blocks[i].cid));
  }

  lemma RenamingHits(a: Db, b: Db, k: Id)
    requires ValidDb(a) && ValidDb(b) && BlocksByCid(a) == BlocksByCid(b) && k in b.blocks
    ensures k in Renaming(a, b).Values
  {
    RowOf(b, k);
    assert b.blocks[k].cid in BlocksByCid(a);
    var i := IdOf(a, b.blocks[k].cid);
    RenamingOfRow(a, b, i);
    assert Renaming(a, b)[i] == k;
  }

  lemma RenamingOfBlocks(a: Db, b: Db)
    requires ValidDb(a) && ValidDb(b) && BlocksByCid(a) == BlocksByCid(b)
    ensures Renaming(a, b).Keys == a.blocks.Keys && Renaming(a, b).Values == b.blocks.Keys
    ensures forall i :: i in a.blocks ==>
              b.blocks[Renaming(a, b)[i]] == a.blocks[i] && InfoOf(b, Renaming(a, b)[i]) == InfoOf(a, i)
  {
    forall i | i in a.blocks
      ensures i in Renaming(a, b) && b.blocks[Renaming(a, b)[i]] == a.blocks[i]
      ensures InfoOf(b, Renaming(a, b)[i]) == InfoOf(a, i)
    {
      RenamingOfRow(a, b, i);
    }
    forall k | k in b.blocks ensures k in Renaming(a, b).Values {
      RenamingHits(a, b, k);
    }
  }

  lemma RenamingOfLink(a: Db, b: Db, l: LinkRow)
    requires ValidDb(a) && ValidDb(b) && CidLinks(a) == CidLinks(b) && l in a.links
    requires Renaming(a, b).Keys == a.blocks.Keys
    requires forall i :: i in a.blocks ==> b.blocks[Renaming(a, b)[i]] == a.blocks[i]
    ensures RenameLink(Renaming(a, b), l) in b.links
  {
    assert CidLink(a.blocks, l) in CidLinks(b);
    LinkOf(b, RenameLink(Renaming(a, b), l));
  }

  lemma RenamingOfLinks(a: Db, b: Db)
    requires ValidDb(a) && ValidDb(b) && CidLinks(a) == CidLinks(b)
    requires Renaming(a, b).Keys == a.blocks.Keys
    requires forall i :: i in a.blocks ==> b.blocks[Renaming(a, b)[i]] == a.blocks[i]
    ensures forall l :: l in a.links ==> RenameLink(Renaming(a, b), l) in b.links
    ensures forall m :: m in b.links ==> exists l :: l in a.links && RenameLink(Renaming(a, b), l) == m
  {
    var r := Renaming(a, b);
    forall l | l in a.links ensures RenameLink(r, l) in b.links {
      RenamingOfLink(a, b, l);
    }
    forall m | m in b.links ensures exists l :: l in a.links && RenameLink(r, l) == m {
      var l := RenamedFrom(a, b, m);
    }
  }

  lemma RenamedFrom(a: Db, b: Db, m: LinkRow) returns (l: LinkRow)
    requires ValidDb(a) && ValidDb(b) && CidLinks(a) == CidLinks(b) && m in b.links
    requires Renaming(a, b).Keys == a.blocks.Keys
    requires forall i :: i in a.blocks ==> b.blocks[Renaming(a, b)[i]] == a.blocks[i]
    ensures l in a.links && RenameLink(Renaming(a, b), l) == m
  {
    assert CidLink(b.blocks, m) in CidLinks(a);
    l :| l in a.links && CidLink(a.blocks, l) == CidLink(b.blocks, m);
  }

  /** Two databases with the same tables differ only by a renaming of their row ids. */
  lemma SameTablesRenames(a: Db, b: Db)
    requires ValidDb(a) && ValidDb(b) && TablesOf(a) == TablesOf(b)
    ensures exists r :: Renames(r, a, b)
  {
    RenamingOfBlocks(a, b);
    RenamingOfLinks(a, b);
    assert Renames(Renaming(a, b), a, b);
  }
}
