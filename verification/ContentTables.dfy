/** What the metadata store means, up to row ids: the tables of internal/protocol/store/metadata.go keyed by CID.

    The class in MetadataStore.dfy keeps real rows with real ids; every one of its methods is proved to
    act on these tables exactly as the functions below say. */
module ContentTables {
  import opened Wrappers
  import opened Cids

  /** UnixFS metadata extracted from a node before the transaction starts. */
  datatype UnixFSMeta = UnixFSMeta(name: string, kind: nat, blockSize: int, children: seq<Cid>)

  /** What an upload hands to the store. `unixfs` is None when the node is not a UnixFS node. */
  datatype PinnedBlock = PinnedBlock(cid: Cid, links: seq<Cid>, size: nat, unixfs: Option<UnixFSMeta>)

  datatype BlockInfo = BlockInfo(size: nat, last: Option<int>, ready: bool, unixfs: Option<UnixFSMeta>)

  /** A link row; `parent` is None for an orphaned row (parent_id IS NULL). */
  datatype Link = Link(parent: Option<Cid>, child: Cid, index: nat)

  datatype Tables = Tables(blocks: map<Cid, BlockInfo>, links: set<Link>)

  const PLACEHOLDER := BlockInfo(0, None, false, None)

  function Prepare(b: PinnedBlock): PinnedBlock {
    b.(cid := NormalizeCid(b.cid), links := Uniq(NormalizeAll(b.links)))
  }

  function PrepareAll(bs: seq<PinnedBlock>): (r: seq<PinnedBlock>)
    ensures |r| == |bs|
    ensures forall i :: 0 <= i < |bs| ==> r[i] == Prepare(bs[i])
  {
    seq(|bs|, i requires 0 <= i < |bs| => Prepare(bs[i]))
  }

  // ---- the block table -------------------------------------------------------------------------

  /** Placeholder rows for the CIDs that have none; existing rows win. */
  function EnsureBlocks(blocks: map<Cid, BlockInfo>, cs: set<Cid>): map<Cid, BlockInfo> {
    (map c | c in cs :: PLACEHOLDER) + blocks
  }

  /** The upsert of a pinned block: size and readiness are overwritten, the announcement time is not. */
  function UpsertBlock(blocks: map<Cid, BlockInfo>, b: PinnedBlock): map<Cid, BlockInfo> {
    var was := if b.cid in blocks then blocks[b.cid] else PLACEHOLDER;
    blocks[b.cid := BlockInfo(b.size, was.last, true, if b.unixfs.Some? then b.unixfs else was.unixfs)]
  }

  // ---- the link table --------------------------------------------------------------------------

  function OrphansOf(links: set<Link>, child: Cid): set<Link> {
    set l | l in links && l.parent == None && l.child == child
  }

  function AdoptedBy(links: set<Link>, parent: Cid, child: Cid): set<Link> {
    set l | l in OrphansOf(links, child) :: Link(Some(parent), child, l.index)
  }

  /** Insert-or-ignore of one link row; when the row was there already, orphans of the child are adopted,
      which fails if an adopted row would duplicate an existing one. */
  function AddLink(links: set<Link>, parent: Cid, child: Cid, index: nat): Option<set<Link>> {
    if Link(Some(parent), child, index) !in links then
      Some(links + {Link(Some(parent), child, index)})
    else if AdoptedBy(links, parent, child) !! links then
      Some(links - OrphansOf(links, child) + AdoptedBy(links, parent, child))
    else
      None
  }

  /** The first n link rows of a block. */
  function AddLinks(links: set<Link>, parent: Cid, children: seq<Cid>, n: nat): Option<set<Link>>
    requires n <= |children|
  {
    if n == 0 then Some(links)
    else
      match AddLinks(links, parent, children, n - 1)
      case None => None
      case Some(ls) => AddLink(ls, parent, children[n - 1], n - 1)
  }

  // ---- the operations --------------------------------------------------------------------------

  /** One prepared block inside a transaction; None is an error that rolls the transaction back. */
  function PinInTx(t: Tables, b: PinnedBlock): Option<Tables> {
    match AddLinks(t.links, b.cid, b.links, |b.links|)
    case None => None
    case Some(ls) => Some(Tables(UpsertBlock(t.blocks, b), ls))
  }

  function Pin(t: Tables, b: PinnedBlock): Option<Tables> {
    var p := Prepare(b);
    PinInTx(t.(blocks := EnsureBlocks(t.blocks, Elems(p.links))), p)
  }

  function PinAllInTx(t: Tables, bs: seq<PinnedBlock>): Option<Tables> {
    if bs == [] then Some(t)
    else
      match PinAllInTx(t, bs[..|bs| - 1])
      case None => None
      case Some(u) => PinInTx(u, bs[|bs| - 1])
  }

  function ChildrenOf(bs: seq<PinnedBlock>): set<Cid> {
    set b, c | b in bs && c in b.links :: c
  }

  function BatchPin(t: Tables, bs: seq<PinnedBlock>): Option<Tables> {
    var ps := PrepareAll(bs);
    PinAllInTx(t.(blocks := EnsureBlocks(t.blocks, ChildrenOf(ps))), ps)
  }

  /** Pinning the blocks one call after the other. */
  function PinEach(t: Tables, bs: seq<PinnedBlock>): Option<Tables> {
    if bs == [] then Some(t)
    else
      match PinEach(t, bs[..|bs| - 1])
      case None => None
      case Some(u) => Pin(u, bs[|bs| - 1])
  }

  function Unpin(t: Tables, c: Cid): Tables {
    var n := NormalizeCid(c);
    Tables(t.blocks - {n}, set l | l in t.links && l.child != n && l.parent != Some(n))
  }

  function MarkBlockReady(t: Tables, c: Cid, ready: bool): Option<Tables> {
    var n := NormalizeCid(c);
    if n !in t.blocks then None else Some(t.(blocks := t.blocks[n := t.blocks[n].(ready := ready)]))
  }

  predicate IsReady(t: Tables, c: Cid) {
    c in t.blocks && t.blocks[c].ready
  }

  /** One UPDATE per CID; a CID without a ready row fails the whole transaction. */
  function SetLastAnnouncement(t: Tables, cs: seq<Cid>, now: int): Option<Tables> {
    if cs == [] then Some(t)
    else
      match SetLastAnnouncement(t, cs[..|cs| - 1], now)
      case None => None
      case Some(u) =>
        var n := NormalizeCid(cs[|cs| - 1]);
        if IsReady(u, n) then Some(u.(blocks := u.blocks[n := u.blocks[n].(last := Some(now))])) else None
  }

  // ---- queries ---------------------------------------------------------------------------------

  function ReadyLinksFrom(t: Tables, parent: Cid): set<Link> {
    set l | l in t.links && l.parent == Some(parent) && IsReady(t, l.child)
  }

  ghost predicate SortedByIndex(rows: seq<Link>) {
    forall i, j :: 0 <= i < j < |rows| ==> rows[i].index <= rows[j].index
  }

  /** The rows of a query, each exactly once, in link order; rows with equal index come in any order. */
  ghost predicate ListsChildren(t: Tables, parent: Cid, rows: seq<Link>) {
    && Distinct(rows)
    && Elems(rows) == ReadyLinksFrom(t, parent)
    && SortedByIndex(rows)
  }

  function ChildCids(rows: seq<Link>): (r: seq<Cid>)
    ensures |r| == |rows|
    ensures forall i :: 0 <= i < |rows| ==> r[i] == rows[i].child
  {
    seq(|rows|, i requires 0 <= i < |rows| => rows[i].child)
  }

  /** Announcement times order rows oldest first; a row that was never announced comes first. */
  predicate NoLater(a: Option<int>, b: Option<int>) {
    a == None || (b.Some? && a.value <= b.value)
  }

  function AnnouncedAt(t: Tables, c: Cid): Option<int> {
    if c in t.blocks then t.blocks[c].last else None
  }

  predicate Before(last: Option<int>, since: int) {
    last == None || last.value < since
  }

  /** Ready blocks not announced since the cutoff. */
  function Stale(t: Tables, since: int): set<Cid> {
    set c | c in t.blocks && t.blocks[c].ready && Before(t.blocks[c].last, since)
  }

  function ReadyCids(t: Tables): set<Cid> {
    set c | c in t.blocks && t.blocks[c].ready
  }

  function AnnouncedSince(t: Tables, since: int): set<Cid> {
    set c | c in t.blocks && t.blocks[c].ready && t.blocks[c].last.Some? && t.blocks[c].last.value >= since
  }

  /** A negative limit is no limit. */
  function Limited(n: nat, limit: int): nat {
    if 0 <= limit < n then limit else n
  }

  /** The oldest stale CIDs up to the limit, oldest first; rows of equal age come in any order. */
  ghost predicate ListsOldest(t: Tables, since: int, limit: int, cs: seq<Cid>) {
    && Distinct(cs)
    && (forall c :: c in cs ==> c in Stale(t, since))
    && |cs| == Limited(|Stale(t, since)|, limit)
    && (forall i, j :: 0 <= i < j < |cs| ==> NoLater(AnnouncedAt(t, cs[i]), AnnouncedAt(t, cs[j])))
    && (forall c, d :: c in cs && d in Stale(t, since) && d !in cs ==> NoLater(AnnouncedAt(t, c), AnnouncedAt(t, d)))
  }

  // ---- consistency -----------------------------------------------------------------------------

  /** No link row points at a missing block. */
  predicate Consistent(t: Tables) {
    forall l :: l in t.links ==> l.child in t.blocks && (l.parent.Some? ==> l.parent.value in t.blocks)
  }

  predicate NoOrphans(t: Tables) {
    forall l :: l in t.links ==> l.parent.Some?
  }
}
