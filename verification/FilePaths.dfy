/** ComputePathsRecursive (internal/protocol/op_file_path.go:384-506): which file path entries a run creates. */
module FilePathsSpec {
  import opened Wrappers
  import opened Cids
  import opened Graphs

  datatype Meta = Meta(name: string, isDir: bool, blockSize: nat, children: seq<Cid>)

  /** What the services answer: the metadata that can be looked up, the CIDs whose entry cannot be created
      (for another reason than that it exists), and those whose size cannot be saved afterwards. */
  datatype Env = Env(metas: map<Cid, Meta>, failing: set<Cid>, unsaved: set<Cid>, text: Cid -> string)

  datatype Entry = Entry(cid: Cid, path: string, name: string, isDir: bool, parentPath: string, depth: nat, size: nat)

  /** The processed CIDs after a call, the entries and orphans it created in order, and the size it returns. */
  datatype Out = Out(processed: set<Cid>, entries: seq<Entry>, orphans: seq<Cid>, total: Option<nat>)

  function NodeName(env: Env, c: Cid): string
    requires c in env.metas
  {
    if env.metas[c].name == "" then env.text(c) else env.metas[c].name
  }

  function PathOf(name: string, parentPath: string, depth: nat): string {
    if depth == 0 || parentPath == "/" then "/" + name else parentPath + "/" + name
  }

  function NewEntry(env: Env, c: Cid, parentPath: string, depth: nat): Entry
    requires c in env.metas
  {
    var name := NodeName(env, c);
    Entry(c, PathOf(name, parentPath, depth), name, env.metas[c].isDir, if depth == 0 then "/" else parentPath, depth,
          env.metas[c].blockSize)
  }

  predicate Expands(env: Env, c: Cid) {
    c in env.metas && c !in env.failing && env.metas[c].isDir
  }

  /** The CIDs that can still get an entry. */
  function Left(env: Env, v: set<Cid>): set<Cid> {
    env.metas.Keys - v
  }

  lemma LeftShrinks(env: Env, v: set<Cid>, w: set<Cid>)
    requires v <= w
    ensures |Left(env, w)| <= |Left(env, v)|
    ensures forall c :: c in env.metas && c !in v && c in w ==> |Left(env, w)| < |Left(env, v)|
  {
    Subset(Left(env, w), Left(env, v));
    forall c | c in env.metas && c !in v && c in w ensures |Left(env, w)| < |Left(env, v)| {
      Subset(Left(env, w), Left(env, v) - {c});
    }
  }

  /** One node: its entry comes first, then those of its children; the size of a directory is updated last. */
  function Compute(env: Env, c: Cid, parentPath: string, depth: nat, v: set<Cid>): (r: Out)
    requires c in env.metas
    ensures v <= r.processed
    decreases |Left(env, v)|, 0
  {
    if c in v then Out(v, [], [], Some(0))
    else if c in env.failing then Out(v + {c}, [], [], None)
    else
      var m, e := env.metas[c], NewEntry(env, c, parentPath, depth);
      if m.isDir && m.children != [] then
        LeftShrinks(env, v, v + {c});
        var below := ComputeAll(env, m.children, e.path, depth + 1, v + {c});
        var total := m.blockSize + below.total.value;
        var own := if c in env.unsaved then e else e.(size := total);
        Out(below.processed, [own] + below.entries, below.orphans, Some(total))
      else Out(v + {c}, [e], [], Some(m.blockSize))
  }

  /** Two parts of a run joined. */
  function Join(a: Out, b: Out): Out
    requires a.total.Some?
  {
    Out(b.processed, a.entries + b.entries, a.orphans + b.orphans,
        Some(a.total.value + if b.total.Some? then b.total.value else 0))
  }

  /** The children in order; one without metadata becomes an orphan, and one that fails adds nothing. */
  function ComputeAll(env: Env, cs: seq<Cid>, parentPath: string, depth: nat, v: set<Cid>): (r: Out)
    ensures v <= r.processed && r.total.Some?
    decreases |Left(env, v)|, |cs|
  {
    if cs == [] then Out(v, [], [], Some(0))
    else
      var before, c := ComputeAll(env, cs[..|cs| - 1], parentPath, depth, v), cs[|cs| - 1];
      if c !in env.metas then before.(orphans := before.orphans + [c])
      else
        LeftShrinks(env, v, before.processed);
        Join(before, Compute(env, c, parentPath, depth, before.processed))
  }

  // ---- one entry per CID -----------------------------------------------------------------------

  /** No CID has two entries, and every entry is for a CID that was not processed before. */
  ghost predicate OneEach(es: seq<Entry>, v: set<Cid>, w: set<Cid>) {
    && (forall i :: 0 <= i < |es| ==> es[i].cid in w && es[i].cid !in v)
    && (forall i, j :: 0 <= i < j < |es| ==> es[i].cid != es[j].cid)
  }

  lemma {:induction false} ComputeOneEach(env: Env, c: Cid, parentPath: string, depth: nat, v: set<Cid>)
    requires c in env.metas
    ensures var r := Compute(env, c, parentPath, depth, v); OneEach(r.entries, v, r.processed)
    decreases |Left(env, v)|, 0
  {
    if c !in v && c !in env.failing {
      var m, e := env.metas[c], NewEntry(env, c, parentPath, depth);
      if m.isDir && m.children != [] {
        LeftShrinks(env, v, v + {c});
        ComputeAllOneEach(env, m.children, e.path, depth + 1, v + {c});
        var below := ComputeAll(env, m.children, e.path, depth + 1, v + {c});
        var own := if c in env.unsaved then e else e.(size := m.blockSize + below.total.value);
        OneEachAppend([own], below.entries, v, v + {c}, below.processed);
        assert Compute(env, c, parentPath, depth, v).entries == [own] + below.entries;
      }
    }
  }

  lemma {:induction false} ComputeAllOneEach(env: Env, cs: seq<Cid>, parentPath: string, depth: nat, v: set<Cid>)
    ensures var r := ComputeAll(env, cs, parentPath, depth, v); OneEach(r.entries, v, r.processed)
    decreases |Left(env, v)|, |cs|
  {
    if cs != [] {
      var before, c := ComputeAll(env, cs[..|cs| - 1], parentPath, depth, v), cs[|cs| - 1];
      ComputeAllOneEach(env, cs[..|cs| - 1], parentPath, depth, v);
      if c in env.metas {
        LeftShrinks(env, v, before.processed);
        ComputeOneEach(env, c, parentPath, depth, before.processed);
        var last := Compute(env, c, parentPath, depth, before.processed);
        OneEachAppend(before.entries, last.entries, v, before.processed, last.processed);
      }
    }
  }

  lemma OneEachAppend(a: seq<Entry>, b: seq<Entry>, v: set<Cid>, w: set<Cid>, x: set<Cid>)
    requires OneEach(a, v, w) && OneEach(b, w, x) && v <= w <= x
    ensures OneEach(a + b, v, x)
  {
  }

  // ---- entries form a tree ---------------------------------------------------------------------

  /** The entry is the one that c gets at this place, apart from its size. */
  predicate EntryOf(env: Env, e: Entry, parentPath: string, depth: nat) {
    e.cid in env.metas && e.(size := 0) == NewEntry(env, e.cid, parentPath, depth).(size := 0)
  }

  /** Entry p lists entry i as a child, names its path, and everything between them is below p. */
  predicate ParentOf(env: Env, es: seq<Entry>, p: int, i: int) {
    && 0 <= p < i < |es| && es[p].cid in env.metas && es[p].isDir && es[i].cid in env.metas[es[p].cid].children
    && EntryOf(env, es[i], es[p].path, es[p].depth + 1) && Deeper(es, p, i)
  }

  predicate Deeper(es: seq<Entry>, p: int, i: int)
    requires 0 <= p < i < |es|
  {
    forall k :: p < k < i ==> es[k].depth > es[p].depth
  }

  ghost predicate HasParent(env: Env, es: seq<Entry>, i: int) {
    exists p :: ParentOf(env, es, p, i)
  }

  /** Every entry hangs below an earlier one or is one of the starting nodes. */
  ghost predicate Placed(env: Env, es: seq<Entry>, cs: seq<Cid>, parentPath: string, depth: nat) {
    forall i :: 0 <= i < |es| ==> PlacedAt(env, es, i, cs, parentPath, depth)
  }

  ghost predicate PlacedAt(env: Env, es: seq<Entry>, i: int, cs: seq<Cid>, parentPath: string, depth: nat)
    requires 0 <= i < |es|
  {
    HasParent(env, es, i) || Starts(env, es[i], cs, parentPath, depth)
  }

  predicate Starts(env: Env, e: Entry, cs: seq<Cid>, parentPath: string, depth: nat) {
    e.cid in cs && EntryOf(env, e, parentPath, depth)
  }

  predicate AtLeast(es: seq<Entry>, depth: nat) {
    forall i :: 0 <= i < |es| ==> es[i].depth >= depth
  }

  lemma ShiftParent(env: Env, a: seq<Entry>, b: seq<Entry>, i: int)
    requires HasParent(env, b, i)
    ensures HasParent(env, a + b, |a| + i)
  {
    var p :| ParentOf(env, b, p, i);
    assert forall k :: |a| + p < k < |a| + i ==> (a + b)[k] == b[k - |a|];
    assert ParentOf(env, a + b, |a| + p, |a| + i);
  }

  lemma KeepParent(env: Env, a: seq<Entry>, b: seq<Entry>, i: int)
    requires HasParent(env, a, i)
    ensures HasParent(env, a + b, i)
  {
    var p :| ParentOf(env, a, p, i);
    assert ParentOf(env, a + b, p, i);
  }

  lemma PlacedAppend(env: Env, a: seq<Entry>, b: seq<Entry>, cs: seq<Cid>, parentPath: string, depth: nat)
    requires cs != [] && Placed(env, a, cs[..|cs| - 1], parentPath, depth)
    requires Placed(env, b, [cs[|cs| - 1]], parentPath, depth)
    ensures Placed(env, a + b, cs, parentPath, depth)
  {
    var es := a + b;
    forall i | 0 <= i < |es| ensures PlacedAt(env, es, i, cs, parentPath, depth) {
      if i < |a| {
        PlacedLeft(env, a, b, cs, parentPath, depth, i);
      } else {
        PlacedRight(env, a, b, cs, parentPath, depth, i - |a|);
      }
    }
  }

  lemma PlacedLeft(env: Env, a: seq<Entry>, b: seq<Entry>, cs: seq<Cid>, parentPath: string, depth: nat, i: int)
    requires 0 <= i < |a| && cs != [] && PlacedAt(env, a, i, cs[..|cs| - 1], parentPath, depth)
    ensures PlacedAt(env, a + b, i, cs, parentPath, depth)
  {
    if HasParent(env, a, i) {
      KeepParent(env, a, b, i);
    }
  }

  lemma PlacedRight(env: Env, a: seq<Entry>, b: seq<Entry>, cs: seq<Cid>, parentPath: string, depth: nat, i: int)
    requires 0 <= i < |b| && cs != [] && PlacedAt(env, b, i, [cs[|cs| - 1]], parentPath, depth)
    ensures PlacedAt(env, a + b, |a| + i, cs, parentPath, depth)
  {
    if HasParent(env, b, i) {
      ShiftParent(env, a, b, i);
    }
  }

  lemma FirstIsParent(env: Env, e: Entry, b: seq<Entry>, i: int)
    requires 0 <= i < |b| && e.cid in env.metas && e.isDir && AtLeast(b, e.depth + 1)
    requires Starts(env, b[i], env.metas[e.cid].children, e.path, e.depth + 1)
    ensures HasParent(env, [e] + b, i + 1)
  {
    var es := [e] + b;
    assert forall k :: 0 < k < |es| ==> es[k] == b[k - 1];
    assert ParentOf(env, es, 0, i + 1);
  }

  lemma PlacedBelow(env: Env, e: Entry, b: seq<Entry>)
    requires e.cid in env.metas && e.isDir && AtLeast(b, e.depth + 1)
    requires Placed(env, b, env.metas[e.cid].children, e.path, e.depth + 1)
    ensures forall i :: 0 < i < |[e] + b| ==> HasParent(env, [e] + b, i)
  {
    forall i | 0 < i < |[e] + b| ensures HasParent(env, [e] + b, i) {
      assert PlacedAt(env, b, i - 1, env.metas[e.cid].children, e.path, e.depth + 1);
      if HasParent(env, b, i - 1) {
        ShiftParent(env, [e], b, i - 1);
      } else {
        FirstIsParent(env, e, b, i - 1);
      }
    }
  }

  /** A node's entry at this place, and then only what is below it. */
  ghost predicate PlacedNode(env: Env, es: seq<Entry>, c: Cid, parentPath: string, depth: nat) {
    && Placed(env, es, [c], parentPath, depth) && AtLeast(es, depth)
    && (es != [] ==> es[0].depth == depth && AtLeast(es[1..], depth + 1))
  }

  lemma DirectoryPlaces(env: Env, e: Entry, below: seq<Entry>, parentPath: string)
    requires e.cid in env.metas && e.isDir && EntryOf(env, e, parentPath, e.depth)
    requires Placed(env, below, env.metas[e.cid].children, e.path, e.depth + 1) && AtLeast(below, e.depth + 1)
    ensures PlacedNode(env, [e] + below, e.cid, parentPath, e.depth)
  {
    PlacedBelow(env, e, below);
    assert ([e] + below)[1..] == below;
  }

  lemma {:induction false} ComputePlaces(env: Env, c: Cid, parentPath: string, depth: nat, v: set<Cid>)
    requires c in env.metas
    ensures PlacedNode(env, Compute(env, c, parentPath, depth, v).entries, c, parentPath, depth)
    decreases |Left(env, v)|, 0
  {
    if c !in v && c !in env.failing {
      var m, e := env.metas[c], NewEntry(env, c, parentPath, depth);
      if m.isDir && m.children != [] {
        LeftShrinks(env, v, v + {c});
        ComputeAllPlaces(env, m.children, e.path, depth + 1, v + {c});
        var below := ComputeAll(env, m.children, e.path, depth + 1, v + {c});
        var own := if c in env.unsaved then e else e.(size := m.blockSize + below.total.value);
        DirectoryPlaces(env, own, below.entries, parentPath);
        assert Compute(env, c, parentPath, depth, v).entries == [own] + below.entries;
      }
    }
  }

  lemma {:induction false} ComputeAllPlaces(env: Env, cs: seq<Cid>, parentPath: string, depth: nat, v: set<Cid>)
    ensures var r := ComputeAll(env, cs, parentPath, depth, v);
            Placed(env, r.entries, cs, parentPath, depth) && AtLeast(r.entries, depth)
    decreases |Left(env, v)|, |cs|
  {
    if cs != [] {
      var before, c := ComputeAll(env, cs[..|cs| - 1], parentPath, depth, v), cs[|cs| - 1];
      ComputeAllPlaces(env, cs[..|cs| - 1], parentPath, depth, v);
      if c in env.metas {
        LeftShrinks(env, v, before.processed);
        ComputePlaces(env, c, parentPath, depth, before.processed);
        var last := Compute(env, c, parentPath, depth, before.processed);
        PlacedAppend(env, before.entries, last.entries, cs, parentPath, depth);
      } else {
        PlacedAppend(env, before.entries, [], cs, parentPath, depth);
        assert before.entries + [] == before.entries;
      }
    }
  }

  // ---- sizes -----------------------------------------------------------------------------------

  function BlockSizes(env: Env, es: seq<Entry>): nat {
    if es == [] then 0
    else
      var c := es[|es| - 1].cid;
      BlockSizes(env, es[..|es| - 1]) + if c in env.metas then env.metas[c].blockSize else 0
  }

  lemma {:induction false} BlockSizesAppend(env: Env, a: seq<Entry>, b: seq<Entry>)
    ensures BlockSizes(env, a + b) == BlockSizes(env, a) + BlockSizes(env, b)
  {
    if b == [] {
      assert a + b == a;
    } else {
      assert (a + b)[..|a + b| - 1] == a + b[..|b| - 1];
      BlockSizesAppend(env, a, b[..|b| - 1]);
    }
  }

  /** The run of entries that starts with entry i and goes on as long as they are deeper: the subtree of i. */
  function Subtree(es: seq<Entry>, i: nat, depth: nat): seq<Entry>
    requires i < |es|
    decreases |es| - i
  {
    [es[i]] + if i + 1 < |es| && es[i + 1].depth > depth then Subtree(es, i + 1, depth) else []
  }

  /** The size of an entry is that of all the blocks of its subtree; if that could not be saved it is still the
      size of its own block. */
  predicate Sized(env: Env, es: seq<Entry>, i: nat)
    requires i < |es|
  {
    var e := es[i];
    if e.cid in env.unsaved then e.cid in env.metas && e.size == env.metas[e.cid].blockSize
    else e.size == BlockSizes(env, Subtree(es, i, e.depth))
  }

  predicate AllSized(env: Env, es: seq<Entry>) {
    forall i :: 0 <= i < |es| ==> Sized(env, es, i)
  }

  lemma {:induction false} SubtreeShift(a: seq<Entry>, b: seq<Entry>, i: nat, depth: nat)
    requires i < |b|
    ensures Subtree(a + b, |a| + i, depth) == Subtree(b, i, depth)
    decreases |b| - i
  {
    if i + 1 < |b| && b[i + 1].depth > depth {
      SubtreeShift(a, b, i + 1, depth);
    }
  }

  /** What follows is not deeper, so the subtrees are complete. */
  lemma {:induction false} SubtreeKeep(a: seq<Entry>, b: seq<Entry>, i: nat, depth: nat)
    requires i < |a| && (b != [] ==> b[0].depth <= depth)
    ensures Subtree(a + b, i, depth) == Subtree(a, i, depth)
    decreases |a| - i
  {
    if i + 1 < |a| && a[i + 1].depth > depth {
      SubtreeKeep(a, b, i + 1, depth);
    }
  }

  lemma {:induction false} SubtreeAll(es: seq<Entry>, i: nat, depth: nat)
    requires i < |es| && AtLeast(es[i + 1..], depth + 1)
    ensures Subtree(es, i, depth) == es[i..]
    decreases |es| - i
  {
    if i + 1 < |es| {
      assert es[i + 1] == es[i + 1..][0];
      assert es[i + 2..] == es[i + 1..][1..];
      SubtreeAll(es, i + 1, depth);
      assert es[i..] == [es[i]] + es[i + 1..];
    }
  }

  lemma SizedLeft(env: Env, a: seq<Entry>, b: seq<Entry>, i: nat)
    requires i < |a| && Sized(env, a, i) && (b != [] ==> b[0].depth <= a[i].depth)
    ensures Sized(env, a + b, i)
  {
    SubtreeKeep(a, b, i, a[i].depth);
  }

  lemma SizedRight(env: Env, a: seq<Entry>, b: seq<Entry>, i: nat)
    requires i < |b| && Sized(env, b, i)
    ensures Sized(env, a + b, |a| + i)
  {
    SubtreeShift(a, b, i, b[i].depth);
  }

  lemma SizedAppend(env: Env, a: seq<Entry>, b: seq<Entry>, depth: nat)
    requires AllSized(env, a) && AllSized(env, b) && AtLeast(a, depth) && (b != [] ==> b[0].depth <= depth)
    ensures AllSized(env, a + b)
  {
    forall i | 0 <= i < |a + b| ensures Sized(env, a + b, i) {
      if i < |a| {
        assert a[i].depth >= depth;
        SizedLeft(env, a, b, i);
      } else {
        assert Sized(env, b, i - |a|);
        SizedRight(env, a, b, i - |a|);
      }
    }
  }

  lemma SizedBelow(env: Env, e: Entry, b: seq<Entry>)
    requires AllSized(env, b) && AtLeast(b, e.depth + 1)
    requires e.cid !in env.unsaved ==> e.size == BlockSizes(env, [e] + b)
    requires e.cid in env.unsaved ==> e.cid in env.metas && e.size == env.metas[e.cid].blockSize
    ensures AllSized(env, [e] + b)
  {
    var es := [e] + b;
    assert es[1..] == b && es[0..] == es;
    SubtreeAll(es, 0, e.depth);
    forall i | 0 < i < |es| ensures Sized(env, es, i) {
      SizedRight(env, [e], b, i - 1);
    }
  }

  lemma OwnSize(env: Env, e: Entry, b: seq<Entry>)
    requires e.cid in env.metas
    ensures BlockSizes(env, [e] + b) == env.metas[e.cid].blockSize + BlockSizes(env, b)
  {
    assert [e][..0] == [];
    BlockSizesAppend(env, [e], b);
  }

  lemma {:induction false} ComputeSizes(env: Env, c: Cid, parentPath: string, depth: nat, v: set<Cid>)
    requires c in env.metas
    ensures var r := Compute(env, c, parentPath, depth, v);
            && AllSized(env, r.entries) && BlockSizes(env, r.entries) == (if r.total.Some? then r.total.value else 0)
            && (r.total.None? <==> c !in v && c in env.failing)
    decreases |Left(env, v)|, 0
  {
    if c !in v && c !in env.failing {
      var m, e := env.metas[c], NewEntry(env, c, parentPath, depth);
      if m.isDir && m.children != [] {
        LeftShrinks(env, v, v + {c});
        ComputeAllSizes(env, m.children, e.path, depth + 1, v + {c});
        ComputeAllPlaces(env, m.children, e.path, depth + 1, v + {c});
        var below := ComputeAll(env, m.children, e.path, depth + 1, v + {c});
        var total := m.blockSize + below.total.value;
        DirectorySizes(env, e, below.entries, total);
        assert Compute(env, c, parentPath, depth, v).entries ==
               [if c in env.unsaved then e else e.(size := total)] + below.entries;
      } else {
        LeafSizes(env, e);
        assert Compute(env, c, parentPath, depth, v).entries == [e];
      }
    }
  }

  lemma LeafSizes(env: Env, e: Entry)
    requires e.cid in env.metas && e.size == env.metas[e.cid].blockSize
    ensures AllSized(env, [e]) && BlockSizes(env, [e]) == e.size
  {
    OwnSize(env, e, []);
    assert [e] + [] == [e];
    SizedBelow(env, e, []);
  }

  lemma DirectorySizes(env: Env, e: Entry, below: seq<Entry>, total: nat)
    requires e.cid in env.metas && AllSized(env, below) && AtLeast(below, e.depth + 1)
    requires total == env.metas[e.cid].blockSize + BlockSizes(env, below) && e.size == env.metas[e.cid].blockSize
    ensures var es := [if e.cid in env.unsaved then e else e.(size := total)] + below;
            AllSized(env, es) && BlockSizes(env, es) == total
  {
    var own := if e.cid in env.unsaved then e else e.(size := total);
    OwnSize(env, own, below);
    SizedBelow(env, own, below);
  }

  lemma {:induction false} ComputeAllSizes(env: Env, cs: seq<Cid>, parentPath: string, depth: nat, v: set<Cid>)
    ensures var r := ComputeAll(env, cs, parentPath, depth, v);
            AllSized(env, r.entries) && BlockSizes(env, r.entries) == r.total.value
    decreases |Left(env, v)|, |cs|
  {
    if cs != [] {
      var before, c := ComputeAll(env, cs[..|cs| - 1], parentPath, depth, v), cs[|cs| - 1];
      ComputeAllSizes(env, cs[..|cs| - 1], parentPath, depth, v);
      if c in env.metas {
        LeftShrinks(env, v, before.processed);
        ComputeSizes(env, c, parentPath, depth, before.processed);
        ComputePlaces(env, c, parentPath, depth, before.processed);
        ComputeAllPlaces(env, cs[..|cs| - 1], parentPath, depth, v);
        var last := Compute(env, c, parentPath, depth, before.processed);
        SizedAppend(env, before.entries, last.entries, depth);
        BlockSizesAppend(env, before.entries, last.entries);
      }
    }
  }

  // ---- which CIDs are processed ----------------------------------------------------------------

  function Known(env: Env, cs: seq<Cid>): seq<Cid> {
    if cs == [] then []
    else
      var c := cs[|cs| - 1];
      Known(env, cs[..|cs| - 1]) + if c in env.metas then [c] else []
  }

  lemma {:induction false} KnownMembers(env: Env, cs: seq<Cid>)
    ensures forall c :: c in Known(env, cs) <==> c in cs && c in env.metas
  {
    if cs != [] {
      KnownMembers(env, cs[..|cs| - 1]);
      assert cs == cs[..|cs| - 1] + [cs[|cs| - 1]];
    }
  }

  /** The computation goes from a directory that has its entry to the children that have metadata. */
  function Edges(env: Env): Graph {
    map c | c in env.metas && Expands(env, c) :: Known(env, env.metas[c].children)
  }

  lemma {:induction false} ComputeVisits(env: Env, c: Cid, parentPath: string, depth: nat, v: set<Cid>)
    requires c in env.metas
    ensures Compute(env, c, parentPath, depth, v).processed == Visit(Edges(env), [c], v)
    decreases |Left(env, v)|, 0
  {
    VisitOne(Edges(env), c, v);
    if c !in v {
      var m, e := env.metas[c], NewEntry(env, c, parentPath, depth);
      if c !in env.failing && m.isDir && m.children != [] {
        LeftShrinks(env, v, v + {c});
        ComputeAllVisits(env, m.children, e.path, depth + 1, v + {c});
      } else {
        assert Successors(Edges(env), c) == [];
      }
    }
  }

  lemma {:induction false} ComputeAllVisits(env: Env, cs: seq<Cid>, parentPath: string, depth: nat, v: set<Cid>)
    ensures ComputeAll(env, cs, parentPath, depth, v).processed == Visit(Edges(env), Known(env, cs), v)
    decreases |Left(env, v)|, |cs|
  {
    if cs != [] {
      var front, c := cs[..|cs| - 1], cs[|cs| - 1];
      var before := ComputeAll(env, front, parentPath, depth, v);
      ComputeAllVisits(env, front, parentPath, depth, v);
      if c in env.metas {
        LeftShrinks(env, v, before.processed);
        ComputeVisits(env, c, parentPath, depth, before.processed);
        VisitLast(Edges(env), Known(env, front), c, v);
      } else {
        assert Known(env, cs) == Known(env, front);
      }
    }
  }

  // ---- which CIDs get an entry, and which become orphans ---------------------------------------

  ghost predicate HasEntry(es: seq<Entry>, c: Cid) {
    exists i :: 0 <= i < |es| && es[i].cid == c
  }

  /** A directory that got its entry between v and w lists o. */
  ghost predicate ListedBetween(env: Env, v: set<Cid>, w: set<Cid>, o: Cid) {
    exists p :: p in w && p !in v && p in env.metas && p !in env.failing && env.metas[p].isDir
                && o in env.metas[p].children
  }

  /** What became of c: it has an entry if it was newly processed and its entry could be created; it is an orphan
      if it has no metadata and was asked for by the call itself or by a directory that got its entry. */
  ghost predicate Accounted(env: Env, r: Out, cs: seq<Cid>, v: set<Cid>, c: Cid) {
    && (HasEntry(r.entries, c) <==> c in r.processed && c !in v && c !in env.failing)
    && (c in r.orphans <==> c !in env.metas && (c in cs || ListedBetween(env, v, r.processed, c)))
  }

  lemma {:induction false} ComputeAccounts(env: Env, x: Cid, parentPath: string, depth: nat, v: set<Cid>, c: Cid)
    requires x in env.metas
    ensures Accounted(env, Compute(env, x, parentPath, depth, v), [x], v, c)
    decreases |Left(env, v)|, 0
  {
    if x !in v && x !in env.failing {
      var m, e := env.metas[x], NewEntry(env, x, parentPath, depth);
      if m.isDir && m.children != [] {
        LeftShrinks(env, v, v + {x});
        ComputeAllAccounts(env, m.children, e.path, depth + 1, v + {x}, c);
        var below := ComputeAll(env, m.children, e.path, depth + 1, v + {x});
        var own := if x in env.unsaved then e else e.(size := m.blockSize + below.total.value);
        EntryAppend([own], below.entries, c);
        EntryOne(own, c);
        assert Compute(env, x, parentPath, depth, v).entries == [own] + below.entries;
      } else {
        EntryOne(e, c);
      }
    }
  }

  lemma EntryOne(e: Entry, c: Cid)
    ensures HasEntry([e], c) <==> c == e.cid
  {
    assert [e][0].cid == e.cid;
  }

  lemma EntryAppend(a: seq<Entry>, b: seq<Entry>, c: Cid)
    ensures HasEntry(a + b, c) <==> HasEntry(a, c) || HasEntry(b, c)
  {
    if HasEntry(a, c) {
      var i :| 0 <= i < |a| && a[i].cid == c;
      assert (a + b)[i].cid == c;
    }
    if HasEntry(b, c) {
      var i :| 0 <= i < |b| && b[i].cid == c;
      assert (a + b)[|a| + i].cid == c;
    }
  }

  lemma {:induction false} ComputeAllAccounts(env: Env, cs: seq<Cid>, parentPath: string, depth: nat, v: set<Cid>,
                                              c: Cid)
    ensures Accounted(env, ComputeAll(env, cs, parentPath, depth, v), cs, v, c)
    decreases |Left(env, v)|, |cs|
  {
    if cs != [] {
      var front, x := cs[..|cs| - 1], cs[|cs| - 1];
      assert cs == front + [x];
      var before := ComputeAll(env, front, parentPath, depth, v);
      ComputeAllAccounts(env, front, parentPath, depth, v, c);
      if x in env.metas {
        LeftShrinks(env, v, before.processed);
        ComputeAccounts(env, x, parentPath, depth, before.processed, c);
        var last := Compute(env, x, parentPath, depth, before.processed);
        EntryAppend(before.entries, last.entries, c);
      }
    }
  }

  // ---- the run over all roots ------------------------------------------------------------------

  /** Whatever the order of the roots: each CID has at most one entry; every entry that is not a root's hangs
      below an earlier directory that lists it, with the path and depth this gives; every size is that of the
      blocks in the entry's subtree; and the processed CIDs are those that can be reached from the roots. */
  lemma RunIsATree(env: Env, roots: seq<Cid>)
    requires forall c :: c in roots ==> c in env.metas
    ensures var r := ComputeAll(env, roots, "/", 0, {});
            && OneEach(r.entries, {}, r.processed) && Placed(env, r.entries, roots, "/", 0) && AllSized(env, r.entries)
            && forall c :: c in r.processed <==> Reachable(Edges(env), roots, c)
  {
    ComputeAllOneEach(env, roots, "/", 0, {});
    ComputeAllPlaces(env, roots, "/", 0, {});
    ComputeAllSizes(env, roots, "/", 0, {});
    ComputeAllVisits(env, roots, "/", 0, {});
    KnownAll(env, roots);
    VisitIsReachability(Edges(env), roots);
  }

  lemma {:induction false} KnownAll(env: Env, cs: seq<Cid>)
    requires forall c :: c in cs ==> c in env.metas
    ensures Known(env, cs) == cs
  {
    if cs != [] {
      KnownAll(env, cs[..|cs| - 1]);
      assert cs == cs[..|cs| - 1] + [cs[|cs| - 1]];
    }
  }

  /** In every run: an entry for exactly the processed CIDs whose entry can be created, and as orphans exactly the
      CIDs without metadata that some directory with an entry lists. */
  lemma RunAccounts(env: Env, roots: seq<Cid>, c: Cid)
    requires forall r :: r in roots ==> r in env.metas
    ensures var r := ComputeAll(env, roots, "/", 0, {});
            && (HasEntry(r.entries, c) <==> c in r.processed && c !in env.failing)
            && (c in r.orphans <==> c !in env.metas && ListedBetween(env, {}, r.processed, c))
  {
    ComputeAllAccounts(env, roots, "/", 0, {}, c);
  }

  /** The order of the roots does not matter for what is processed. */
  lemma RootOrderIsIrrelevant(env: Env, a: seq<Cid>, b: seq<Cid>)
    requires Elems(a) == Elems(b) && forall c :: c in a ==> c in env.metas
    ensures ComputeAll(env, a, "/", 0, {}).processed == ComputeAll(env, b, "/", 0, {}).processed
  {
    assert forall c :: (c in a <==> c in Elems(a)) && (c in b <==> c in Elems(b));
    KnownAll(env, a);
    KnownAll(env, b);
    ComputeAllVisits(env, a, "/", 0, {});
    ComputeAllVisits(env, b, "/", 0, {});
    VisitOrder(Edges(env), a, b);
  }

  /** A path is the parent's path and the name. */
  lemma ChildPath(env: Env, es: seq<Entry>, p: int, i: int)
    requires ParentOf(env, es, p, i) && |es[p].path| > 1
    ensures es[i].path == es[p].path + "/" + es[i].name
    ensures es[i].parentPath == es[p].path && es[i].depth == es[p].depth + 1
  {
  }

  /** The name of an entry is that of the node's metadata, or the text of its CID if it has none. */
  predicate NamedByMeta(env: Env, e: Entry) {
    && e.cid in env.metas && e.isDir == env.metas[e.cid].isDir
    && (env.metas[e.cid].name != "" ==> e.name == env.metas[e.cid].name)
    && (env.metas[e.cid].name == "" ==> e.name == env.text(e.cid))
  }

  /** Entry p is a directory that lists entry i, whose path goes on from its; between them are entries below p. */
  predicate Continues(env: Env, es: seq<Entry>, p: int, i: int) {
    && 0 <= p < i < |es| && es[p].cid in env.metas && env.metas[es[p].cid].isDir
    && es[i].cid in env.metas[es[p].cid].children
    && es[i].path == es[p].path + "/" + es[i].name && es[i].parentPath == es[p].path
    && es[i].depth == es[p].depth + 1 && Deeper(es, p, i)
  }

  /** Entry i is a root's, directly below "/", or its path continues that of an earlier directory. */
  ghost predicate PathJoined(env: Env, es: seq<Entry>, roots: seq<Cid>, i: int)
    requires 0 <= i < |es|
  {
    || (es[i].cid in roots && es[i].depth == 0 && es[i].parentPath == "/" && es[i].path == "/" + es[i].name)
    || exists p :: Continues(env, es, p, i)
  }

  lemma EntryIsNamed(env: Env, e: Entry, parentPath: string, depth: nat)
    requires EntryOf(env, e, parentPath, depth)
    ensures NamedByMeta(env, e)
  {
    var n := NewEntry(env, e.cid, parentPath, depth);
    assert e.name == e.(size := 0).name == n.(size := 0).name && e.isDir == e.(size := 0).isDir == n.isDir;
  }

  lemma EntryHasPath(env: Env, e: Entry, parentPath: string, depth: nat)
    requires EntryOf(env, e, parentPath, depth) && forall c :: env.text(c) != ""
    ensures |e.path| > 1
  {
    assert e.path == e.(size := 0).path == NewEntry(env, e.cid, parentPath, depth).(size := 0).path;
  }

  lemma EntriesHavePaths(env: Env, es: seq<Entry>, cs: seq<Cid>, i: int)
    requires Placed(env, es, cs, "/", 0) && 0 <= i < |es| && forall c :: env.text(c) != ""
    ensures |es[i].path| > 1
  {
    assert PlacedAt(env, es, i, cs, "/", 0);
    if HasParent(env, es, i) {
      var p :| ParentOf(env, es, p, i);
      EntryHasPath(env, es[i], es[p].path, es[p].depth + 1);
    } else {
      EntryHasPath(env, es[i], "/", 0);
    }
  }

  /** In every run, whatever the order of the roots: an entry has the name and the kind that its node's metadata
      gives it, and its path, parent path and depth are those of an earlier directory that lists it, continued by
      this name, unless it is a root's and lies directly below "/". */
  lemma RunPaths(env: Env, roots: seq<Cid>, i: int)
    requires (forall c :: c in roots ==> c in env.metas) && forall c :: env.text(c) != ""
    requires 0 <= i < |ComputeAll(env, roots, "/", 0, {}).entries|
    ensures var es := ComputeAll(env, roots, "/", 0, {}).entries;
            NamedByMeta(env, es[i]) && PathJoined(env, es, roots, i)
  {
    var es := ComputeAll(env, roots, "/", 0, {}).entries;
    RunIsATree(env, roots);
    assert PlacedAt(env, es, i, roots, "/", 0);
    if HasParent(env, es, i) {
      var p :| ParentOf(env, es, p, i);
      EntriesHavePaths(env, es, roots, p);
      ChildPath(env, es, p, i);
      EntryIsNamed(env, es[i], es[p].path, es[p].depth + 1);
      ParentIsNamed(env, es, roots, p);
      assert Continues(env, es, p, i);
    } else {
      EntryIsNamed(env, es[i], "/", 0);
    }
  }

  lemma ParentIsNamed(env: Env, es: seq<Entry>, roots: seq<Cid>, p: int)
    requires 0 <= p < |es| && PlacedAt(env, es, p, roots, "/", 0)
    ensures NamedByMeta(env, es[p])
  {
    if HasParent(env, es, p) {
      var q :| ParentOf(env, es, q, p);
      EntryIsNamed(env, es[p], es[q].path, es[q].depth + 1);
    } else {
      EntryIsNamed(env, es[p], "/", 0);
    }
  }

  /** Wherever a node is processed, its entry comes first: at that depth, directly below "/" at depth 0 and below
      the given path otherwise. */
  lemma FirstEntry(env: Env, c: Cid, parentPath: string, depth: nat, v: set<Cid>)
    requires c in env.metas && c !in v && c !in env.failing
    ensures var es := Compute(env, c, parentPath, depth, v).entries;
            && es != [] && es[0].cid == c && es[0].depth == depth && NamedByMeta(env, es[0])
            && (depth == 0 ==> es[0].parentPath == "/" && es[0].path == "/" + es[0].name)
            && (depth > 0 ==> es[0].parentPath == parentPath)
            && (depth > 0 && parentPath == "/" ==> es[0].path == "/" + es[0].name)
            && (depth > 0 && parentPath != "/" ==> es[0].path == parentPath + "/" + es[0].name)
  {
    EntryIsNamed(env, NewEntry(env, c, parentPath, depth), parentPath, depth);
  }

  /** The part of a run over the first i nodes. */
  function After(env: Env, cs: seq<Cid>, i: nat, path: string, depth: nat, v: set<Cid>): (r: Out)
    requires i <= |cs|
    ensures v <= r.processed && r.total.Some?
  {
    ComputeAll(env, cs[..i], path, depth, v)
  }

  lemma OneMore(env: Env, cs: seq<Cid>, i: nat, path: string, depth: nat, v: set<Cid>)
    requires i < |cs|
    ensures var before := After(env, cs, i, path, depth, v);
            After(env, cs, i + 1, path, depth, v) ==
            if cs[i] in env.metas then Join(before, Compute(env, cs[i], path, depth, before.processed))
            else before.(orphans := before.orphans + [cs[i]])
  {
    assert cs[..i + 1][..i] == cs[..i];
  }

  lemma AllNodes(env: Env, cs: seq<Cid>, path: string, depth: nat, v: set<Cid>)
    ensures After(env, cs, 0, path, depth, v) == Out(v, [], [], Some(0))
    ensures After(env, cs, |cs|, path, depth, v) == ComputeAll(env, cs, path, depth, v)
  {
    assert cs[..0] == [] && cs[..|cs|] == cs;
  }

  lemma Longer(env: Env, cs: seq<Cid>, c: Cid, path: string, depth: nat, v: set<Cid>)
    requires c in env.metas
    ensures var before := ComputeAll(env, cs, path, depth, v);
            ComputeAll(env, cs + [c], path, depth, v) == Join(before, Compute(env, c, path, depth, before.processed))
    ensures Elems(cs + [c]) == Elems(cs) + {c}
  {
    assert (cs + [c])[..|cs|] == cs;
  }

  lemma Associates<T>(a: seq<T>, b: seq<T>, c: seq<T>)
    ensures a + b + c == a + (b + c)
  {
  }
}

/** The operation itself: a processed map shared by all the recursive calls, and the table of entries. */
module FilePaths {
  import opened Wrappers
  import opened Cids
  import opened FilePathsSpec
  import opened FileRoots

  lemma Replaced(es: seq<Entry>, e: Entry, rest: seq<Entry>, f: Entry)
    ensures (es + [e] + rest)[|es| := f] == es + ([f] + rest)
  {
  }

  class FilePathOperation {
    const env: Env
    var processed: set<Cid>
    var entries: seq<Entry>
    var orphans: seq<Cid>

    constructor (env: Env)
      ensures this.env == env && processed == {} && entries == [] && orphans == []
    {
      this.env := env;
      processed, entries, orphans := {}, [], [];
    }

    /** What a call added, as a result. */
    twostate predicate Added(r: Out)
      reads this
    {
      processed == r.processed && entries == old(entries) + r.entries && orphans == old(orphans) + r.orphans
    }

    method ComputePathsRecursive(c: Cid, m: Meta, parentPath: string, depth: nat) returns (total: Option<nat>)
      requires c in env.metas && m == env.metas[c]
      modifies this
      ensures Added(Compute(env, c, parentPath, depth, old(processed)))
      ensures total == Compute(env, c, parentPath, depth, old(processed)).total
      decreases |Left(env, processed)|, 0
    {
      ghost var r := Compute(env, c, parentPath, depth, processed);
      if c in processed {
        return Some(0);
      }
      LeftShrinks(env, processed, processed + {c});
      processed := processed + {c};
      if c in env.failing {
        return None;
      }
      var e := NewEntry(env, c, parentPath, depth);
      var k := |entries|;
      entries := entries + [e];
      if !m.isDir || |m.children| == 0 {
        return Some(m.blockSize);
      }
      ghost var all := ComputeAll(env, m.children, e.path, depth + 1, processed);
      var below := ComputeChildren(m.children, e.path, depth + 1);
      Replaced(old(entries), e, all.entries, e.(size := m.blockSize + below));
      Associates(old(entries), [e], all.entries);
      if c !in env.unsaved {
        entries := entries[k := e.(size := m.blockSize + below)];
      }
      assert entries == old(entries) + r.entries;
      assert orphans == old(orphans) + r.orphans && processed == r.processed;
      return Some(m.blockSize + below);
    }

    /** One child; a failing one adds nothing. */
    method AddChild(c: Cid, path: string, depth: nat, size: nat) returns (total: nat)
      requires c in env.metas
      modifies this
      ensures Added(Compute(env, c, path, depth, old(processed)))
      ensures var one := Compute(env, c, path, depth, old(processed)).total;
              total == size + if one.Some? then one.value else 0
      decreases |Left(env, processed)|, 1
    {
      var childSize := ComputePathsRecursive(c, env.metas[c], path, depth);
      total := if childSize.Some? then size + childSize.value else size;
    }

    /** The loop over the children of a directory. */
    method ComputeChildren(children: seq<Cid>, path: string, depth: nat) returns (size: nat)
      modifies this
      ensures Added(ComputeAll(env, children, path, depth, old(processed)))
      ensures ComputeAll(env, children, path, depth, old(processed)).total == Some(size)
      decreases |Left(env, processed)|, 3
    {
      size := 0;
      ghost var first := processed;
      AllNodes(env, children, path, depth, first);
      var i := 0;
      while i < |children|
        invariant i <= |children| && Added(After(env, children, i, path, depth, first))
        invariant After(env, children, i, path, depth, first).total == Some(size)
      {
        OneMore(env, children, i, path, depth, first);
        ghost var now := After(env, children, i, path, depth, first);
        var c := children[i];
        if c !in env.metas {
          Associates(old(orphans), now.orphans, [c]);
          orphans := orphans + [c];
        } else {
          LeftShrinks(env, first, processed);
          size := AppendChild(c, path, depth, size, now, old(entries), old(orphans));
        }
        i := i + 1;
      }
    }

    /** One child, on top of what the children before it have added. */
    method AppendChild(c: Cid, path: string, depth: nat, size: nat, ghost now: Out, ghost es: seq<Entry>,
                       ghost os: seq<Cid>)
      returns (total: nat)
      requires c in env.metas && now.total == Some(size)
      requires processed == now.processed && entries == es + now.entries && orphans == os + now.orphans
      modifies this
      ensures var r := Join(now, Compute(env, c, path, depth, old(processed)));
              && processed == r.processed && entries == es + r.entries && orphans == os + r.orphans
              && r.total == Some(total)
      decreases |Left(env, processed)|, 2
    {
      ghost var one := Compute(env, c, path, depth, processed);
      total := AddChild(c, path, depth, size);
      Associates(es, now.entries, one.entries);
      Associates(os, now.orphans, one.orphans);
    }

    /** The root filter. */
    method RootCids(fetched: set<Cid>) returns (roots: set<Cid>)
      requires fetched <= env.metas.Keys
      ensures forall c :: c in roots <==> IsRoot(env, fetched, c)
    {
      var childSet: set<Cid> := {};
      var todo := fetched;
      while todo != {}
        invariant todo <= fetched
        invariant forall c :: c in childSet <==> exists p :: p in fetched - todo && c in env.metas[p].children
        decreases |todo|
      {
        var p :| p in todo;
        childSet := childSet + Elems(env.metas[p].children);
        todo := todo - {p};
      }
      roots := fetched - childSet;
    }

    /** The loop over the roots, in any order. */
    method ProcessRoots(roots: set<Cid>) returns (ghost order: seq<Cid>)
      requires roots <= env.metas.Keys && processed == {}
      modifies this
      ensures Elems(order) == roots && Added(ComputeAll(env, order, "/", 0, {}))
    {
      order := [];
      var todo, size := roots, 0;
      while todo != {}
        invariant todo <= roots && Elems(order) == roots - todo && Added(ComputeAll(env, order, "/", 0, {}))
        invariant ComputeAll(env, order, "/", 0, {}).total == Some(size)
        decreases |todo|
      {
        var c :| c in todo;
        Longer(env, order, c, "/", 0, {});
        ghost var now := ComputeAll(env, order, "/", 0, {});
        size := AppendChild(c, "/", 0, size, now, old(entries), old(orphans));
        order := order + [c];
        todo := todo - {c};
      }
    }
  }
}
