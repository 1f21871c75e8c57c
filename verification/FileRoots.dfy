/** The run over all fetched blocks (internal/protocol/op_file_path.go:126-201): which of them are roots, and
    whether processing the roots reaches the others. */
module FileRoots {
  import opened Cids
  import opened Graphs
  import opened FilePathsSpec

  /** The fetched CIDs that no fetched node lists as a child. */
  ghost predicate IsRoot(env: Env, fetched: set<Cid>, c: Cid)
    requires fetched <= env.metas.Keys
  {
    c in fetched && forall p :: p in fetched ==> c !in env.metas[p].children
  }

  /** A fetched directory whose entry can be created lists c. */
  ghost predicate Listed(env: Env, fetched: set<Cid>, c: Cid) {
    exists p :: p in fetched && Expands(env, p) && c in env.metas[p].children
  }

  /** Everything a fetched node lists has been fetched too. */
  ghost predicate ChildrenFetched(env: Env, fetched: set<Cid>)
    requires fetched <= env.metas.Keys
  {
    forall d, c :: d in fetched && c in env.metas[d].children ==> c in fetched
  }

  /** The child relation has no cycle: children have a lower rank. */
  ghost predicate Acyclic(env: Env, fetched: set<Cid>, rank: map<Cid, nat>)
    requires fetched <= env.metas.Keys
  {
    && fetched <= rank.Keys
    && forall p, c :: p in fetched && c in fetched && c in env.metas[p].children ==> rank[c] < rank[p]
  }

  /** c is processed when the roots are, in whatever order. */
  ghost predicate Processed(env: Env, fetched: set<Cid>, c: Cid)
    requires fetched <= env.metas.Keys
  {
    exists r :: IsRoot(env, fetched, r) && Reachable(Edges(env), [r], c)
  }

  /** In whatever order the roots are taken, these are the CIDs the run processes. */
  lemma RunProcesses(env: Env, fetched: set<Cid>, order: seq<Cid>)
    requires fetched <= env.metas.Keys && forall c :: c in order <==> IsRoot(env, fetched, c)
    ensures forall c :: c in ComputeAll(env, order, "/", 0, {}).processed <==> Processed(env, fetched, c)
  {
    RunIsATree(env, order);
    forall c | Reachable(Edges(env), order, c) ensures Processed(env, fetched, c) {
      var p :| IsPath(Edges(env), p) && p[0] in order && p[|p| - 1] == c;
      assert IsRoot(env, fetched, p[0]) && p[0] in [p[0]];
      assert Reachable(Edges(env), [p[0]], c);
    }
    forall c | Processed(env, fetched, c) ensures Reachable(Edges(env), order, c) {
      var r :| IsRoot(env, fetched, r) && Reachable(Edges(env), [r], c);
      var p :| IsPath(Edges(env), p) && p[0] in [r] && p[|p| - 1] == c;
      assert p[0] in order;
    }
  }

  lemma {:induction false} HighestRank(s: set<Cid>, rank: map<Cid, nat>) returns (bound: nat)
    requires s <= rank.Keys
    ensures forall c :: c in s ==> rank[c] <= bound
  {
    if s == {} {
      bound := 0;
    } else {
      var c :| c in s;
      bound := HighestRank(s - {c}, rank);
      bound := if rank[c] > bound then rank[c] else bound;
    }
  }

  lemma ReachableExtends(g: Graph, cs: seq<Cid>, p: Cid, c: Cid)
    requires Reachable(g, cs, p) && c in Successors(g, p)
    ensures Reachable(g, cs, c)
  {
    var path :| IsPath(g, path) && path[0] in cs && path[|path| - 1] == p;
    var longer := path + [c];
    assert IsPath(g, longer) && longer[0] in cs && longer[|longer| - 1] == c;
  }

  /** Going up from parent to parent ends at a root. */
  lemma {:induction false} ListedIsProcessed(env: Env, fetched: set<Cid>, rank: map<Cid, nat>, bound: nat, c: Cid)
    requires fetched <= env.metas.Keys && Acyclic(env, fetched, rank) && c in fetched
    requires forall d :: d in fetched ==> rank[d] <= bound
    requires forall d :: d in fetched ==> IsRoot(env, fetched, d) || Listed(env, fetched, d)
    ensures Processed(env, fetched, c)
    decreases bound - rank[c]
  {
    if IsRoot(env, fetched, c) {
      assert IsPath(Edges(env), [c]) && [c][0] in [c];
      assert Reachable(Edges(env), [c], c);
    } else {
      var p :| p in fetched && Expands(env, p) && c in env.metas[p].children;
      ListedIsProcessed(env, fetched, rank, bound, p);
      var r :| IsRoot(env, fetched, r) && Reachable(Edges(env), [r], p);
      KnownMembers(env, env.metas[p].children);
      ReachableExtends(Edges(env), [r], p, c);
    }
  }

  lemma {:induction false} PathOfFetched(env: Env, fetched: set<Cid>, p: seq<Cid>)
    requires fetched <= env.metas.Keys && IsPath(Edges(env), p) && p[0] in fetched
    requires ChildrenFetched(env, fetched)
    ensures p[|p| - 1] in fetched
  {
    if |p| > 1 {
      PathOfFetched(env, fetched, p[..|p| - 1]);
      KnownMembers(env, env.metas[p[|p| - 2]].children);
    }
  }

  lemma ProcessedIsListed(env: Env, fetched: set<Cid>, c: Cid)
    requires fetched <= env.metas.Keys && Processed(env, fetched, c)
    requires ChildrenFetched(env, fetched)
    ensures IsRoot(env, fetched, c) || Listed(env, fetched, c)
  {
    var r :| IsRoot(env, fetched, r) && Reachable(Edges(env), [r], c);
    var p :| IsPath(Edges(env), p) && p[0] in [r] && p[|p| - 1] == c;
    if |p| > 1 {
      var front := p[..|p| - 1];
      assert IsPath(Edges(env), front) && front[0] == r && front[|front| - 1] == p[|p| - 2];
      PathOfFetched(env, fetched, front);
      EdgeIsListed(env, fetched, p[|p| - 2], c);
    }
  }

  lemma EdgeIsListed(env: Env, fetched: set<Cid>, d: Cid, c: Cid)
    requires d in fetched && c in Successors(Edges(env), d)
    ensures Listed(env, fetched, c)
  {
    KnownMembers(env, env.metas[d].children);
  }

  ghost predicate AllProcessed(env: Env, fetched: set<Cid>)
    requires fetched <= env.metas.Keys
  {
    forall c :: c in fetched ==> Processed(env, fetched, c)
  }

  ghost predicate AllListed(env: Env, fetched: set<Cid>)
    requires fetched <= env.metas.Keys
  {
    forall c :: c in fetched ==> IsRoot(env, fetched, c) || Listed(env, fetched, c)
  }

  /** On an acyclic graph whose children have all been fetched, every fetched block is processed exactly when
      each block that is not a root is listed by some directory whose entry can be created. */
  lemma CoverageIff(env: Env, fetched: set<Cid>, rank: map<Cid, nat>)
    requires fetched <= env.metas.Keys && Acyclic(env, fetched, rank)
    requires ChildrenFetched(env, fetched)
    ensures AllProcessed(env, fetched) <==> AllListed(env, fetched)
  {
    if AllListed(env, fetched) {
      ListedAreProcessed(env, fetched, rank);
    } else if AllProcessed(env, fetched) {
      forall c | c in fetched ensures IsRoot(env, fetched, c) || Listed(env, fetched, c) {
        ProcessedIsListed(env, fetched, c);
      }
    }
  }

  lemma ListedAreProcessed(env: Env, fetched: set<Cid>, rank: map<Cid, nat>)
    requires fetched <= env.metas.Keys && Acyclic(env, fetched, rank) && AllListed(env, fetched)
    ensures AllProcessed(env, fetched)
  {
    var bound := HighestRank(fetched, rank);
    forall c | c in fetched ensures Processed(env, fetched, c) {
      ListedIsProcessed(env, fetched, rank, bound, c);
    }
  }

  /** In particular when only directories have children and every entry can be created; children that were not
      fetched themselves do not matter. */
  lemma EveryFetchedIsProcessed(env: Env, fetched: set<Cid>, rank: map<Cid, nat>)
    requires fetched <= env.metas.Keys && Acyclic(env, fetched, rank) && env.failing == {}
    requires forall p :: p in fetched && env.metas[p].children != [] ==> env.metas[p].isDir
    ensures AllProcessed(env, fetched)
  {
    forall c | c in fetched ensures IsRoot(env, fetched, c) || Listed(env, fetched, c) {
      if !IsRoot(env, fetched, c) {
        var p :| p in fetched && c in env.metas[p].children;
        assert Expands(env, p);
      }
    }
    ListedAreProcessed(env, fetched, rank);
  }

  /** Nodes that are all listed within their own group, and led to only from within it, are never processed. */
  lemma ClosedGroupsAreNotProcessed(env: Env, fetched: set<Cid>, group: set<Cid>, c: Cid)
    requires group <= fetched <= env.metas.Keys && c in group
    requires forall d :: d in group ==> exists p :: p in group && d in env.metas[p].children
    requires forall p, d :: d in group && d in Successors(Edges(env), p) ==> p in group
    ensures !Processed(env, fetched, c)
  {
    if Processed(env, fetched, c) {
      var r :| IsRoot(env, fetched, r) && Reachable(Edges(env), [r], c);
      StartIsInGroup(env, group, r, c);
    }
  }

  lemma StartIsInGroup(env: Env, group: set<Cid>, r: Cid, c: Cid)
    requires Reachable(Edges(env), [r], c) && c in group
    requires forall p, d :: d in group && d in Successors(Edges(env), p) ==> p in group
    ensures r in group
  {
    var path :| IsPath(Edges(env), path) && path[0] in [r] && path[|path| - 1] == c;
    PathComesFromGroup(env, group, path);
  }

  lemma {:induction false} PathComesFromGroup(env: Env, group: set<Cid>, path: seq<Cid>)
    requires IsPath(Edges(env), path) && path[|path| - 1] in group
    requires forall p, d :: d in group && d in Successors(Edges(env), p) ==> p in group
    ensures path[0] in group
  {
    if |path| > 1 {
      assert path[|path| - 1] in Successors(Edges(env), path[|path| - 2]);
      PathComesFromGroup(env, group, path[..|path| - 1]);
    }
  }

  /** Two directories that list each other have no root, and neither is processed. */
  lemma CyclesAreNotCovered(env: Env, a: Cid, b: Cid)
    requires a in env.metas && b in env.metas && b in env.metas[a].children && a in env.metas[b].children
    ensures !Processed(env, {a, b}, a) && !Processed(env, {a, b}, b)
  {
  }
}
