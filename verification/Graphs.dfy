/** Depth-first visits of a finite graph of CIDs, and what they reach. */
module Graphs {
  import opened Cids

  /** The nodes a walk goes on to from each node; a node without an entry leads nowhere. */
  type Graph = map<Cid, seq<Cid>>

  function Successors(g: Graph, c: Cid): seq<Cid> {
    if c in g then g[c] else []
  }

  function Unvisited(g: Graph, v: set<Cid>): set<Cid> {
    g.Keys - v
  }

  lemma UnvisitedShrinks(g: Graph, v: set<Cid>, w: set<Cid>)
    requires v <= w
    ensures |Unvisited(g, w)| <= |Unvisited(g, v)|
    ensures forall c :: c in g && c !in v && c in w ==> |Unvisited(g, w)| < |Unvisited(g, v)|
  {
    Subset(Unvisited(g, w), Unvisited(g, v));
    forall c | c in g && c !in v && c in w ensures |Unvisited(g, w)| < |Unvisited(g, v)| {
      Subset(Unvisited(g, w), Unvisited(g, v) - {c});
    }
  }

  lemma {:induction false} Subset<T>(a: set<T>, b: set<T>)
    requires a <= b
    ensures |a| <= |b|
  {
    if a != {} {
      var x :| x in a;
      Subset(a - {x}, b - {x});
    }
  }

  /** The visited nodes after a depth-first visit of each node of cs in turn. */
  function Visit(g: Graph, cs: seq<Cid>, v: set<Cid>): (r: set<Cid>)
    ensures v <= r
    decreases |Unvisited(g, v)|, |cs|
  {
    if cs == [] then v
    else if cs[0] in v then Visit(g, cs[1..], v)
    else
      UnvisitedShrinks(g, v, v + {cs[0]});
      var w := Visit(g, Successors(g, cs[0]), v + {cs[0]});
      UnvisitedShrinks(g, v, w);
      Visit(g, cs[1..], w)
  }

  lemma VisitOne(g: Graph, c: Cid, v: set<Cid>)
    ensures Visit(g, [c], v) == if c in v then v else Visit(g, Successors(g, c), v + {c})
  {
    assert [c][1..] == [];
    if c !in v {
      var w := Visit(g, Successors(g, c), v + {c});
      assert Visit(g, [c], v) == Visit(g, [c][1..], w) == w;
    }
  }

  lemma {:induction false} VisitLast(g: Graph, cs: seq<Cid>, c: Cid, v: set<Cid>)
    ensures Visit(g, cs + [c], v) == Visit(g, [c], Visit(g, cs, v))
    decreases |Unvisited(g, v)|, |cs|
  {
    var all := cs + [c];
    if cs == [] {
      assert all == [c];
    } else {
      assert all[1..] == cs[1..] + [c];
      var w := if cs[0] in v then v else Visit(g, Successors(g, cs[0]), v + {cs[0]});
      UnvisitedShrinks(g, v, w);
      VisitLast(g, cs[1..], c, w);
    }
  }

  lemma VisitFront(g: Graph, cs: seq<Cid>, v: set<Cid>)
    requires cs != []
    ensures Visit(g, cs, v) == Visit(g, [cs[|cs| - 1]], Visit(g, cs[..|cs| - 1], v))
  {
    assert cs == cs[..|cs| - 1] + [cs[|cs| - 1]];
    VisitLast(g, cs[..|cs| - 1], cs[|cs| - 1], v);
  }

  ghost predicate IsPath(g: Graph, p: seq<Cid>) {
    p != [] && forall i :: 0 < i < |p| ==> p[i] in Successors(g, p[i - 1])
  }

  /** Some path leads from a node of cs to c. */
  ghost predicate Reachable(g: Graph, cs: seq<Cid>, c: Cid) {
    exists p :: IsPath(g, p) && p[0] in cs && p[|p| - 1] == c
  }

  /** The set is closed under the edges of its nodes, except for the nodes of v. */
  ghost predicate ClosedBut(g: Graph, s: set<Cid>, v: set<Cid>) {
    forall c, d :: c in s && c !in v && d in Successors(g, c) ==> d in s
  }

  lemma {:induction false} VisitCloses(g: Graph, cs: seq<Cid>, v: set<Cid>)
    ensures ClosedBut(g, Visit(g, cs, v), v)
    ensures forall c :: c in cs ==> c in Visit(g, cs, v)
    decreases |Unvisited(g, v)|, |cs|
  {
    if cs != [] {
      if cs[0] in v {
        VisitCloses(g, cs[1..], v);
      } else {
        UnvisitedShrinks(g, v, v + {cs[0]});
        var w := Visit(g, Successors(g, cs[0]), v + {cs[0]});
        VisitCloses(g, Successors(g, cs[0]), v + {cs[0]});
        UnvisitedShrinks(g, v, w);
        VisitCloses(g, cs[1..], w);
      }
      assert forall c :: c in cs ==> c == cs[0] || c in cs[1..];
    }
  }

  lemma ReachableByEdge(g: Graph, cs: seq<Cid>, c: Cid, d: Cid)
    requires c in cs && Reachable(g, Successors(g, c), d)
    ensures Reachable(g, cs, d)
  {
    var p :| IsPath(g, p) && p[0] in Successors(g, c) && p[|p| - 1] == d;
    assert IsPath(g, [c] + p);
    assert ([c] + p)[0] in cs;
  }

  lemma {:induction false} VisitReaches(g: Graph, cs: seq<Cid>, v: set<Cid>, c: Cid)
    requires c in Visit(g, cs, v) && c !in v
    ensures Reachable(g, cs, c)
    decreases |Unvisited(g, v)|, |cs|
  {
    if cs[0] in v {
      VisitReaches(g, cs[1..], v, c);
      var p :| IsPath(g, p) && p[0] in cs[1..] && p[|p| - 1] == c;
      assert p[0] in cs;
    } else {
      UnvisitedShrinks(g, v, v + {cs[0]});
      var w := Visit(g, Successors(g, cs[0]), v + {cs[0]});
      UnvisitedShrinks(g, v, w);
      if c == cs[0] {
        assert IsPath(g, [c]) && [c][0] in cs;
      } else if c in w {
        VisitReaches(g, Successors(g, cs[0]), v + {cs[0]}, c);
        ReachableByEdge(g, cs, cs[0], c);
      } else {
        VisitReaches(g, cs[1..], w, c);
        var p :| IsPath(g, p) && p[0] in cs[1..] && p[|p| - 1] == c;
        assert p[0] in cs;
      }
    }
  }

  lemma {:induction false} PathStaysIn(g: Graph, s: set<Cid>, p: seq<Cid>)
    requires ClosedBut(g, s, {}) && IsPath(g, p) && p[0] in s
    ensures p[|p| - 1] in s
  {
    if |p| > 1 {
      PathStaysIn(g, s, p[..|p| - 1]);
    }
  }

  /** A visit from nothing visits exactly what is reachable, on any graph, shared nodes and cycles included. */
  lemma VisitIsReachability(g: Graph, cs: seq<Cid>)
    ensures forall c :: c in Visit(g, cs, {}) <==> Reachable(g, cs, c)
  {
    VisitCloses(g, cs, {});
    forall c ensures c in Visit(g, cs, {}) <==> Reachable(g, cs, c) {
      if c in Visit(g, cs, {}) {
        VisitReaches(g, cs, {}, c);
      } else if Reachable(g, cs, c) {
        var p :| IsPath(g, p) && p[0] in cs && p[|p| - 1] == c;
        PathStaysIn(g, Visit(g, cs, {}), p);
      }
    }
  }

  /** So the order of the starting nodes, and repetitions among them, do not matter. */
  lemma VisitOrder(g: Graph, cs: seq<Cid>, ds: seq<Cid>)
    requires Elems(cs) == Elems(ds)
    ensures Visit(g, cs, {}) == Visit(g, ds, {})
  {
    VisitIsReachability(g, cs);
    VisitIsReachability(g, ds);
    assert forall c :: (c in cs <==> c in Elems(cs)) && (c in ds <==> c in Elems(ds));
  }
}
