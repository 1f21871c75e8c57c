/** walkDAGForTotalSize (internal/protocol/op_file_path.go:625-679): the size of everything below a block. */
module DagWalkSpec {
  import opened Wrappers
  import opened Cids
  import opened Graphs

  /** What the two stores answer; an absent key is a failed lookup. */
  datatype Stores = Stores(sizes: map<Cid, nat>, blockSizes: map<Cid, nat>, children: map<Cid, seq<Cid>>)

  /** The block store is asked only when the metadata store fails. */
  function SizeOf(st: Stores, c: Cid): Option<nat> {
    if c in st.sizes then Some(st.sizes[c]) else if c in st.blockSizes then Some(st.blockSizes[c]) else None
  }

  /** The walk does not stop at c. */
  predicate Readable(st: Stores, c: Cid) {
    SizeOf(st, c).Some? && c in st.children
  }

  /** Walks one block: the visited blocks, and the total unless a lookup for this very block failed. */
  function Walk(st: Stores, c: Cid, v: set<Cid>): (r: (set<Cid>, Option<nat>))
    ensures v <= r.0
    decreases |Unvisited(st.children, v)|, 0
  {
    if c in v then (v, Some(0))
    else if !Readable(st, c) then (v + {c}, None)
    else
      UnvisitedShrinks(st.children, v, v + {c});
      var (w, below) := WalkAll(st, st.children[c], v + {c});
      (w, Some(SizeOf(st, c).value + below))
  }

  /** Walks the children in order; a child that cannot be read adds nothing. */
  function WalkAll(st: Stores, cs: seq<Cid>, v: set<Cid>): (r: (set<Cid>, nat))
    ensures v <= r.0
    decreases |Unvisited(st.children, v)|, |cs|
  {
    if cs == [] then (v, 0)
    else
      var (w, before) := WalkAll(st, cs[..|cs| - 1], v);
      UnvisitedShrinks(st.children, v, w);
      var (x, last) := Walk(st, cs[|cs| - 1], w);
      (x, before + if last.Some? then last.value else 0)
  }

  // ---- sums over sets of blocks ----------------------------------------------------------------

  /** What a block adds to a total. */
  function Weight(st: Stores, c: Cid): nat {
    if Readable(st, c) then SizeOf(st, c).value else 0
  }

  ghost function Sum(st: Stores, s: set<Cid>): nat {
    if s == {} then 0
    else
      var c :| c in s;
      Weight(st, c) + Sum(st, s - {c})
  }

  lemma {:induction false} SumWithout(st: Stores, s: set<Cid>, c: Cid)
    requires c in s
    ensures Sum(st, s) == Weight(st, c) + Sum(st, s - {c})
    decreases s
  {
    var d :| d in s && Sum(st, s) == Weight(st, d) + Sum(st, s - {d});
    if d != c {
      SumWithout(st, s - {d}, c);
      SumWithout(st, s - {c}, d);
      assert s - {d} - {c} == s - {c} - {d};
    }
  }

  lemma {:induction false} SumSplits(st: Stores, a: set<Cid>, b: set<Cid>)
    requires a <= b
    ensures Sum(st, b) == Sum(st, a) + Sum(st, b - a)
    decreases a
  {
    if a == {} {
      assert b - a == b;
    } else {
      var c :| c in a;
      SumWithout(st, a, c);
      SumWithout(st, b, c);
      SumSplits(st, a - {c}, b - {c});
      assert (b - {c}) - (a - {c}) == b - a;
    }
  }

  lemma SumChain(st: Stores, v: set<Cid>, w: set<Cid>, x: set<Cid>)
    requires v <= w <= x
    ensures Sum(st, x - v) == Sum(st, w - v) + Sum(st, x - w)
  {
    SumSplits(st, w - v, x - v);
    assert (x - v) - (w - v) == x - w;
  }

  lemma SumOne(st: Stores, v: set<Cid>, c: Cid)
    requires c !in v
    ensures Sum(st, (v + {c}) - v) == Weight(st, c)
  {
    assert (v + {c}) - v == {c};
    SumWithout(st, {c}, c);
    assert {c} - {c} == {};
  }

  // ---- each block is counted once --------------------------------------------------------------

  lemma {:induction false} WalkCounts(st: Stores, c: Cid, v: set<Cid>)
    ensures var (w, t) := Walk(st, c, v);
            (if t.Some? then t.value else 0) == Sum(st, w - v)
    decreases |Unvisited(st.children, v)|, 0
  {
    var (w, t) := Walk(st, c, v);
    if c in v {
      assert w - v == {};
    } else if !Readable(st, c) {
      SumOne(st, v, c);
    } else {
      UnvisitedShrinks(st.children, v, v + {c});
      WalkAllCounts(st, st.children[c], v + {c});
      SumOne(st, v, c);
      SumChain(st, v, v + {c}, w);
    }
  }

  lemma {:induction false} WalkAllCounts(st: Stores, cs: seq<Cid>, v: set<Cid>)
    ensures var (w, t) := WalkAll(st, cs, v); t == Sum(st, w - v)
    decreases |Unvisited(st.children, v)|, |cs|
  {
    if cs == [] {
      assert v - v == {};
    } else {
      var w := WalkAll(st, cs[..|cs| - 1], v).0;
      WalkAllCounts(st, cs[..|cs| - 1], v);
      UnvisitedShrinks(st.children, v, w);
      WalkCounts(st, cs[|cs| - 1], w);
      SumChain(st, v, w, WalkAll(st, cs, v).0);
    }
  }

  // ---- which blocks are visited ----------------------------------------------------------------

  /** The walk goes from a readable block to its children. */
  function Edges(st: Stores): Graph {
    map c | c in st.children && Readable(st, c) :: st.children[c]
  }

  lemma {:induction false} WalkVisits(st: Stores, c: Cid, v: set<Cid>)
    ensures Walk(st, c, v).0 == Visit(Edges(st), [c], v)
    decreases |Unvisited(st.children, v)|, 0
  {
    VisitOne(Edges(st), c, v);
    if c !in v && Readable(st, c) {
      UnvisitedShrinks(st.children, v, v + {c});
      WalkAllVisits(st, st.children[c], v + {c});
    }
  }

  lemma {:induction false} WalkAllVisits(st: Stores, cs: seq<Cid>, v: set<Cid>)
    ensures WalkAll(st, cs, v).0 == Visit(Edges(st), cs, v)
    decreases |Unvisited(st.children, v)|, |cs|
  {
    if cs != [] {
      var front := cs[..|cs| - 1];
      var w := WalkAll(st, front, v).0;
      WalkAllVisits(st, front, v);
      UnvisitedShrinks(st.children, v, w);
      WalkVisits(st, cs[|cs| - 1], w);
      VisitFront(Edges(st), cs, v);
    }
  }

  /** From an empty visited map the walk visits exactly what can be reached from the root through readable
      blocks, and unless the root itself is unreadable the total counts each readable one of them once. */
  lemma WalkIsExact(st: Stores, root: Cid)
    ensures var (w, t) := Walk(st, root, {});
            && (forall c :: c in w <==> Reachable(Edges(st), [root], c))
            && (t.Some? <==> Readable(st, root)) && (t.Some? ==> t.value == Sum(st, w))
  {
    WalkVisits(st, root, {});
    VisitIsReachability(Edges(st), [root]);
    WalkCounts(st, root, {});
    assert Walk(st, root, {}).0 - {} == Walk(st, root, {}).0;
  }

  // ---- the total as a plain sum ----------------------------------------------------------------

  /** The sum of the values of a map. */
  ghost function Total(m: map<Cid, nat>): nat {
    if m == map[] then 0
    else
      var c :| c in m;
      m[c] + Total(m - {c})
  }

  lemma {:induction false} TotalWithout(m: map<Cid, nat>, c: Cid)
    requires c in m
    ensures Total(m) == m[c] + Total(m - {c})
    decreases |m|
  {
    var d :| d in m && Total(m) == m[d] + Total(m - {d});
    if d != c {
      TotalWithout(m - {d}, c);
      TotalWithout(m - {c}, d);
      assert m - {d} - {c} == m - {c} - {d};
    }
  }

  /** The blocks of s that can be read, with their sizes: that of the metadata store, or else that of the block
      store, and a list of children. */
  function SizesIn(st: Stores, s: set<Cid>): map<Cid, nat> {
    map c | c in s && c in st.children && (c in st.sizes || c in st.blockSizes) ::
      if c in st.sizes then st.sizes[c] else st.blockSizes[c]
  }

  lemma SizesWithout(st: Stores, s: set<Cid>, c: Cid)
    requires c in s
    ensures SizesIn(st, s - {c}) == SizesIn(st, s) - {c}
    ensures Weight(st, c) == if c in SizesIn(st, s) then SizesIn(st, s)[c] else 0
  {
  }

  lemma {:induction false} SumIsTotal(st: Stores, s: set<Cid>)
    ensures Sum(st, s) == Total(SizesIn(st, s))
  {
    if s == {} {
      assert SizesIn(st, s) == map[];
    } else {
      var c :| c in s && Sum(st, s) == Weight(st, c) + Sum(st, s - {c});
      SumIsTotal(st, s - {c});
      SizesWithout(st, s, c);
      if c in SizesIn(st, s) {
        TotalWithout(SizesIn(st, s), c);
      } else {
        assert SizesIn(st, s) - {c} == SizesIn(st, s);
      }
    }
  }

  /** The total of a walk is the sum of the sizes of the blocks it newly visits and can read. */
  lemma TotalIsPlainSum(st: Stores, c: Cid, v: set<Cid>)
    ensures var (w, t) := Walk(st, c, v);
            && (if t.Some? then t.value else 0) == Total(SizesIn(st, w - v))
            && (t.None? <==> c !in v && !(c in st.children && (c in st.sizes || c in st.blockSizes)))
    ensures forall d :: d in Edges(st) <==> d in st.children && (d in st.sizes || d in st.blockSizes)
  {
    WalkCounts(st, c, v);
    SumIsTotal(st, Walk(st, c, v).0 - v);
  }

  /** When the metadata store knows every block below the root and every block has its list of children, the
      total is the sum of what the metadata store says, and the block store does not matter. */
  lemma TotalOfMetadata(st: Stores, root: Cid)
    requires forall c :: Reachable(st.children, [root], c) ==> c in st.sizes && c in st.children
    ensures var (w, t) := Walk(st, root, {});
            && (forall c :: c in w <==> Reachable(st.children, [root], c))
            && t == Some(Total(map c | c in w && c in st.sizes :: st.sizes[c]))
  {
    WalkOfHealthyDag(st, root);
    var w := Walk(st, root, {}).0;
    SumIsTotal(st, w);
    assert SizesIn(st, w) == map c | c in w && c in st.sizes :: st.sizes[c];
  }

  lemma HealthyPath(st: Stores, root: Cid, p: seq<Cid>)
    requires forall c :: Reachable(st.children, [root], c) ==> Readable(st, c)
    requires IsPath(st.children, p) && p[0] == root
    ensures IsPath(Edges(st), p)
  {
    forall i | 0 < i < |p| ensures p[i] in Successors(Edges(st), p[i - 1]) {
      assert IsPath(st.children, p[..i]) && p[..i][0] in [root] && p[..i][i - 1] == p[i - 1];
      assert Readable(st, p[i - 1]);
    }
  }

  lemma EdgesOfHealthyDag(st: Stores, root: Cid, c: Cid)
    requires forall d :: Reachable(st.children, [root], d) ==> Readable(st, d)
    ensures Reachable(Edges(st), [root], c) <==> Reachable(st.children, [root], c)
  {
    if Reachable(Edges(st), [root], c) {
      var p :| IsPath(Edges(st), p) && p[0] in [root] && p[|p| - 1] == c;
      assert IsPath(st.children, p);
    } else if Reachable(st.children, [root], c) {
      var p :| IsPath(st.children, p) && p[0] in [root] && p[|p| - 1] == c;
      HealthyPath(st, root, p);
    }
  }

  /** When every lookup succeeds, nothing is left out: the visited blocks are the whole DAG below the root, and
      the total is the sum of their sizes. */
  lemma WalkOfHealthyDag(st: Stores, root: Cid)
    requires forall c :: Reachable(st.children, [root], c) ==> Readable(st, c)
    ensures var (w, t) := Walk(st, root, {});
            && (forall c :: c in w <==> Reachable(st.children, [root], c))
            && t == Some(Sum(st, w)) && (forall c :: c in w ==> SizeOf(st, c) == Some(Weight(st, c)))
  {
    WalkIsExact(st, root);
    forall c ensures Reachable(Edges(st), [root], c) <==> Reachable(st.children, [root], c) {
      EdgesOfHealthyDag(st, root, c);
    }
    assert IsPath(st.children, [root]) && [root][0] in [root];
  }
}

/** The walk itself: one visited map shared by all the recursive calls, and a 64-bit total. */
module DagWalk {
  import opened Wrappers
  import opened Cids
  import opened Graphs
  import opened DagWalkSpec

  /** A 64-bit unsigned sum. */
  function Wrap(n: nat): (r: nat)
    ensures r <= n
  {
    n % 0x1_0000_0000_0000_0000
  }

  /** The running total after one more child. */
  function AddTo(sum: nat, size: Option<nat>): nat {
    if size.Some? then Wrap(sum + Wrap(size.value)) else sum
  }

  lemma WrappedSum(a: nat, b: nat)
    ensures Wrap(Wrap(a) + Wrap(b)) == Wrap(a + b)
  {
  }

  /** The visited blocks and the wrapped total after the first i children. */
  function SeenAfter(st: Stores, cs: seq<Cid>, i: nat, v: set<Cid>): set<Cid>
    requires i <= |cs|
  {
    WalkAll(st, cs[..i], v).0
  }

  function TotalAfter(st: Stores, cs: seq<Cid>, i: nat, v: set<Cid>, size: nat): nat
    requires i <= |cs|
  {
    Wrap(size + WalkAll(st, cs[..i], v).1)
  }

  lemma OneMoreChild(st: Stores, cs: seq<Cid>, i: nat, v: set<Cid>, size: nat)
    requires i < |cs|
    ensures v <= SeenAfter(st, cs, i, v) && SeenAfter(st, cs, i + 1, v) == Walk(st, cs[i], SeenAfter(st, cs, i, v)).0
    ensures TotalAfter(st, cs, i + 1, v, size) ==
            AddTo(TotalAfter(st, cs, i, v, size), Walk(st, cs[i], SeenAfter(st, cs, i, v)).1)
  {
    assert cs[..i + 1][..i] == cs[..i];
    var (w, sum) := WalkAll(st, cs[..i], v);
    var last := Walk(st, cs[i], w).1;
    WrappedSum(size + sum, if last.Some? then last.value else 0);
  }

  lemma AllChildren(st: Stores, cs: seq<Cid>, v: set<Cid>, size: nat)
    ensures SeenAfter(st, cs, 0, v) == v && TotalAfter(st, cs, 0, v, size) == Wrap(size)
    ensures SeenAfter(st, cs, |cs|, v) == WalkAll(st, cs, v).0
    ensures TotalAfter(st, cs, |cs|, v, size) == Wrap(size + WalkAll(st, cs, v).1)
  {
    assert cs[..0] == [] && cs[..|cs|] == cs;
  }

  class Walker {
    const stores: Stores
    var visited: set<Cid>

    constructor (stores: Stores)
      ensures this.stores == stores && visited == {}
    {
      this.stores := stores;
      visited := {};
    }

    /** The total wraps around at 64 bits. */
    method WalkDAGForTotalSize(c: Cid) returns (total: Option<nat>)
      modifies this
      ensures visited == Walk(stores, c, old(visited)).0
      ensures var t := Walk(stores, c, old(visited)).1;
              total == if t.Some? then Some(t.value % 0x1_0000_0000_0000_0000) else None
      decreases |Unvisited(stores.children, visited)|, 0
    {
      ghost var r := Walk(stores, c, visited);
      if c in visited {
        return Some(0);
      }
      UnvisitedShrinks(stores.children, visited, visited + {c});
      visited := visited + {c};
      var size := SizeOf(stores, c);
      if size.None? || c !in stores.children {
        return None;
      }
      var sum := AddChildren(size.value, stores.children[c]);
      assert visited == r.0 && r.1.Some? && sum == Wrap(r.1.value);
      return Some(sum);
    }

    /** One child; a failing one adds nothing. */
    method AddChild(sum: nat, c: Cid) returns (total: nat)
      modifies this
      ensures visited == Walk(stores, c, old(visited)).0
      ensures total == AddTo(sum, Walk(stores, c, old(visited)).1)
      decreases |Unvisited(stores.children, visited)|, 1
    {
      var childSize := WalkDAGForTotalSize(c);
      total := if childSize.Some? then Wrap(sum + childSize.value) else sum;
    }

    /** The loop over the children of a block. */
    method AddChildren(size: nat, children: seq<Cid>) returns (sum: nat)
      modifies this
      ensures visited == WalkAll(stores, children, old(visited)).0
      ensures sum == Wrap(size + WalkAll(stores, children, old(visited)).1)
      decreases |Unvisited(stores.children, visited)|, 2
    {
      sum := Wrap(size);
      ghost var first := visited;
      AllChildren(stores, children, first, size);
      var i := 0;
      while i < |children|
        invariant i <= |children| && first <= visited && visited == SeenAfter(stores, children, i, first)
        invariant sum == TotalAfter(stores, children, i, first, size)
      {
        UnvisitedShrinks(stores.children, first, visited);
        OneMoreChild(stores, children, i, first, size);
        sum := AddChild(sum, children[i]);
        i := i + 1;
      }
    }
  }
}
