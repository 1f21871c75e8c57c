/** What the calls of BlockRequestTracker (internal/protocol/ipfs/peer_tracker.go) do to the lists of peers,
    and to the sets of peers that the lists stand for. */
module PeerLists {
  import opened Cids

  type Lists = map<Cid, seq<string>>

  /** Lists are never empty and hold no peer twice; CIDs are normalised. */
  ghost predicate Sound(lists: Lists) {
    forall c :: c in lists ==> SoundList(c, lists[c])
  }

  ghost predicate SoundList(c: Cid, peers: seq<string>) {
    c != Undef && Normalized(c) && peers != [] && Distinct(peers) && "" !in peers
  }

  function ListOf(lists: Lists, c: Cid): seq<string> {
    if c in lists then lists[c] else []
  }

  /** A CID without peers has no entry. */
  function WithList(lists: Lists, c: Cid, peers: seq<string>): Lists {
    if peers == [] then lists - {c} else lists[c := peers]
  }

  function Added(lists: Lists, c: Cid, peer: string): Lists {
    var n := NormalizeCid(c);
    if peer == "" || n == Undef || peer in ListOf(lists, n) then lists else lists[n := ListOf(lists, n) + [peer]]
  }

  lemma AddedIs(lists: Lists, c: Cid, peer: string)
    requires peer != "" && NormalizeCid(c) != Undef
    ensures var n := NormalizeCid(c);
            Added(lists, c, peer) == if n !in lists then lists[n := [peer]]
                                     else if peer in lists[n] then lists
                                     else lists[n := lists[n] + [peer]]
  {
    assert [] + [peer] == [peer];
  }

  /** Puts the last element in the place of the i-th. */
  function SwapRemove(s: seq<string>, i: nat): seq<string>
    requires i < |s|
  {
    s[i := s[|s| - 1]][..|s| - 1]
  }

  function Spliced(s: seq<string>, i: nat): seq<string>
    requires i < |s|
  {
    s[..i] + s[i + 1..]
  }

  function Removed(lists: Lists, c: Cid, peer: string): Lists {
    if c in lists then WithList(lists, c, Without(lists[c], peer)) else lists
  }

  function RemovedFromAll(lists: Lists, peer: string): Lists {
    map c | c in lists && Without(lists[c], peer) != [] :: Without(lists[c], peer)
  }

  /** The i-th peer of c is taken, and the last one moves to its place. */
  predicate TakenBySwap(lists: Lists, now: Lists, c: Cid, i: nat, peer: string) {
    c in lists && i < |lists[c]| && peer == lists[c][i] && now == WithList(lists, c, SwapRemove(lists[c], i))
  }

  /** The first peer of c is taken. */
  predicate TakenFirst(lists: Lists, now: Lists, c: Cid, peer: string) {
    c in lists && lists[c] != [] && peer == lists[c][0] && now == WithList(lists, c, lists[c][1..])
  }

  // ---- the sets of peers -----------------------------------------------------------------------

  function PeersOf(lists: Lists, c: Cid): set<string> {
    Elems(ListOf(lists, c))
  }

  lemma SwapRemoveRemoves(s: seq<string>, i: nat)
    requires i < |s| && Distinct(s)
    ensures Distinct(SwapRemove(s, i)) && Elems(SwapRemove(s, i)) == Elems(s) - {s[i]}
  {
    var t := SwapRemove(s, i);
    forall x | x in Elems(s) - {s[i]} ensures x in t {
      var k :| 0 <= k < |s| && s[k] == x;
      assert if k == |s| - 1 then t[i] == x else t[k] == x;
    }
  }

  lemma NewList(lists: Lists, c: Cid, peers: seq<string>)
    requires Sound(lists) && (peers != [] ==> SoundList(c, peers))
    ensures Sound(WithList(lists, c, peers)) && PeersOf(WithList(lists, c, peers), c) == Elems(peers)
    ensures forall d :: d != c ==> ListOf(WithList(lists, c, peers), d) == ListOf(lists, d)
  {
  }

  /** One peer joins the set of one CID. */
  lemma AddedPeers(lists: Lists, c: Cid, peer: string)
    requires Sound(lists)
    ensures Sound(Added(lists, c, peer))
    ensures PeersOf(Added(lists, c, peer), NormalizeCid(c)) ==
            PeersOf(lists, NormalizeCid(c)) + if peer == "" || NormalizeCid(c) == Undef then {} else {peer}
    ensures forall d :: d != NormalizeCid(c) ==> ListOf(Added(lists, c, peer), d) == ListOf(lists, d)
  {
    var n := NormalizeCid(c);
    if peer != "" && n != Undef && peer !in ListOf(lists, n) {
      var peers := ListOf(lists, n) + [peer];
      assert Elems(peers) == Elems(ListOf(lists, n)) + {peer};
      NewList(lists, n, peers);
    }
  }

  /** A version 0 identifier has no list of its own: the peer joins that of the version 1 identifier of the same
      node, which is a protobuf node. */
  lemma BothFormsShareAList(lists: Lists, h: nat, peer: string, d: Cid)
    requires Sound(lists)
    ensures var t := Added(lists, V0(h), peer);
            && t == Added(lists, V1(0x70, h), peer) && V0(h) !in t
            && (peer != "" ==> V1(0x70, h) in t && peer in t[V1(0x70, h)])
            && (d != V1(0x70, h) ==> ListOf(t, d) == ListOf(lists, d))
  {
    AddedPeers(lists, V0(h), peer);
    assert !SoundList(V0(h), ListOf(Added(lists, V0(h), peer), V0(h)));
  }

  /** A random peer leaves the set of one CID. */
  lemma SwapRemovedPeers(lists: Lists, c: Cid, i: nat)
    requires Sound(lists) && c in lists && i < |lists[c]|
    ensures var t := WithList(lists, c, SwapRemove(lists[c], i));
            && Sound(t) && PeersOf(t, c) == PeersOf(lists, c) - {lists[c][i]}
            && forall d :: d != c ==> ListOf(t, d) == ListOf(lists, d)
  {
    SwapRemoveRemoves(lists[c], i);
    assert "" !in Elems(SwapRemove(lists[c], i));
    NewList(lists, c, SwapRemove(lists[c], i));
  }

  lemma PoppedPeers(lists: Lists, c: Cid)
    requires Sound(lists) && c in lists
    ensures var t := WithList(lists, c, lists[c][1..]);
            && Sound(t) && PeersOf(t, c) == PeersOf(lists, c) - {lists[c][0]}
            && forall d :: d != c ==> ListOf(t, d) == ListOf(lists, d)
  {
    RemovedPeers(lists, c, lists[c][0]);
  }

  /** The given peer leaves the set of one CID. */
  lemma RemovedPeers(lists: Lists, c: Cid, peer: string)
    requires Sound(lists)
    ensures var t := Removed(lists, c, peer);
            && Sound(t) && PeersOf(t, c) == PeersOf(lists, c) - {peer}
            && forall d :: d != c ==> ListOf(t, d) == ListOf(lists, d)
  {
    if c in lists {
      WithoutDistinct(lists[c], peer);
      NewList(lists, c, Without(lists[c], peer));
    }
  }

  /** The given peer leaves every set, and the others keep their order. */
  lemma RemovedFromAllPeers(lists: Lists, peer: string)
    requires Sound(lists)
    ensures var t := RemovedFromAll(lists, peer);
            && Sound(t) && (forall c :: PeersOf(t, c) == PeersOf(lists, c) - {peer})
            && (forall c :: ListOf(t, c) == Without(ListOf(lists, c), peer))
  {
    forall c | c in lists
      ensures Distinct(Without(lists[c], peer)) && Elems(Without(lists[c], peer)) == Elems(lists[c]) - {peer}
      ensures "" !in Without(lists[c], peer)
    {
      WithoutDistinct(lists[c], peer);
    }
  }

  lemma RemovedAt(lists: Lists, c: Cid, peer: string, i: nat)
    requires Sound(lists) && c in lists && i <= |lists[c]| && peer !in lists[c][..i]
    requires i < |lists[c]| ==> lists[c][i] == peer
    ensures Removed(lists, c, peer) ==
            if i < |lists[c]| then WithList(lists, c, Spliced(lists[c], i)) else lists
  {
    WithoutAt(lists[c], peer, i);
    assert lists[c := lists[c]] == lists;
  }

  // ---- the walk over all lists -----------------------------------------------------------------

  /** The peer is gone from every list except those that are still to do. */
  function Partly(lists: Lists, todo: set<Cid>, peer: string): Lists {
    map c | c in lists && (c in todo || Without(lists[c], peer) != []) ::
      if c in todo then lists[c] else Without(lists[c], peer)
  }

  lemma OneMoreRemoved(lists: Lists, todo: set<Cid>, c: Cid, peer: string)
    requires c in todo && c in lists
    ensures Removed(Partly(lists, todo, peer), c, peer) == Partly(lists, todo - {c}, peer)
  {
  }

  lemma PartlyEnds(lists: Lists, peer: string)
    ensures Partly(lists, lists.Keys, peer) == lists && Partly(lists, {}, peer) == RemovedFromAll(lists, peer)
  {
  }

  lemma NothingToRemove(lists: Lists, peer: string)
    requires Sound(lists) && forall c :: c in lists ==> peer !in lists[c]
    ensures RemovedFromAll(lists, peer) == lists
  {
    forall c | c in lists ensures Without(lists[c], peer) == lists[c] {
      WithoutAt(lists[c], peer, |lists[c]|);
    }
  }
}

/** The tracker itself: one slice of peers for each CID, edited in place. */
module PeerTracker {
  import opened Wrappers
  import opened Cids
  import opened PeerLists

  /** The elements behind the i-th have moved down as far as the k-th. */
  function Shifted(s: seq<string>, i: nat, k: nat): seq<string>
    requires i <= k < |s|
  {
    s[..i] + s[i + 1..k + 1] + s[k..]
  }

  /** A slice: a window onto a backing array. */
  datatype Slice = Slice(data: array<string>, start: nat, len: nat)

  predicate ValidSlice(s: Slice) {
    s.start + s.len <= s.data.Length
  }

  function Contents(s: Slice): (r: seq<string>)
    requires ValidSlice(s)
    reads s.data
    ensures |r| == s.len
  {
    s.data[s.start..s.start + s.len]
  }

  /** The index of the first x, or the length. */
  method IndexOf(s: Slice, x: string) returns (i: nat)
    requires ValidSlice(s)
    ensures i <= s.len && x !in Contents(s)[..i] && (i < s.len ==> Contents(s)[i] == x)
  {
    i := 0;
    while i < s.len && s.data[s.start + i] != x
      invariant i <= s.len && x !in Contents(s)[..i]
    {
      i := i + 1;
    }
  }

  /** In place if there is room behind the slice, else in a new array. */
  method Append(s: Slice, x: string) returns (t: Slice)
    requires ValidSlice(s)
    modifies s.data
    ensures ValidSlice(t) && Contents(t) == old(Contents(s)) + [x]
    ensures t.data == s.data || fresh(t.data)
  {
    if s.start + s.len < s.data.Length {
      s.data[s.start + s.len] := x;
      t := s.(len := s.len + 1);
    } else {
      t := Grow(s);
      t.data[t.len] := x;
      t := t.(len := t.len + 1);
    }
  }

  /** A copy with room behind it. */
  method Grow(s: Slice) returns (t: Slice)
    requires ValidSlice(s)
    ensures fresh(t.data) && t.start == 0 && t.len == s.len < t.data.Length && Contents(t) == Contents(s)
  {
    var bigger := new string[2 * s.len + 1](_ => "");
    forall k | 0 <= k < s.len {
      bigger[k] := s.data[s.start + k];
    }
    t := Slice(bigger, 0, s.len);
  }

  /** The last element takes the place of the i-th. */
  method SwapRemoveAt(s: Slice, i: nat) returns (t: Slice)
    requires ValidSlice(s) && i < s.len
    modifies s.data
    ensures t.data == s.data && ValidSlice(t) && Contents(t) == SwapRemove(old(Contents(s)), i)
  {
    s.data[s.start + i] := s.data[s.start + s.len - 1];
    t := s.(len := s.len - 1);
  }

  /** The elements behind the i-th move down by one. */
  method RemoveAt(s: Slice, i: nat) returns (t: Slice)
    requires ValidSlice(s) && i < s.len
    modifies s.data
    ensures t.data == s.data && ValidSlice(t) && t.len == s.len - 1
    ensures Contents(t) == Spliced(old(Contents(s)), i)
  {
    ShiftedEnd(Contents(s), i);
    MoveAllDown(s, i);
    t := Shorter(s);
  }

  /** The slice without its last element. */
  function Shorter(s: Slice): (t: Slice)
    requires ValidSlice(s) && s.len > 0
    reads s.data
    ensures ValidSlice(t) && t.data == s.data && t.len == s.len - 1 && Contents(t) == Contents(s)[..s.len - 1]
  {
    s.(len := s.len - 1)
  }

  method MoveAllDown(s: Slice, i: nat)
    requires ValidSlice(s) && i < s.len
    modifies s.data
    ensures Contents(s) == Shifted(old(Contents(s)), i, s.len - 1)
  {
    ghost var was := Contents(s);
    ShiftedStart(was, i);
    var k := i;
    while k + 1 < s.len
      invariant i <= k < s.len && Contents(s) == Shifted(was, i, k)
    {
      ShiftedStep(was, i, k);
      ghost var next := Shifted(was, i, k + 1);
      MoveDown(s, k);
      assert Contents(s) == next;
      k := k + 1;
    }
  }

  lemma ShiftedStart(s: seq<string>, i: nat)
    requires i < |s|
    ensures Shifted(s, i, i) == s
  {
  }

  lemma ShiftedEnd(s: seq<string>, i: nat)
    requires i < |s|
    ensures Shifted(s, i, |s| - 1)[..|s| - 1] == Spliced(s, i)
  {
  }

  method MoveDown(s: Slice, k: nat)
    requires ValidSlice(s) && k + 1 < s.len
    modifies s.data
    ensures Contents(s) == old(Contents(s))[k := old(Contents(s))[k + 1]]
  {
    s.data[s.start + k] := s.data[s.start + k + 1];
  }

  lemma ShiftedStep(s: seq<string>, i: nat, k: nat)
    requires i <= k && k + 1 < |s|
    ensures Shifted(s, i, k)[k := Shifted(s, i, k)[k + 1]] == Shifted(s, i, k + 1)
  {
  }

  method RandomIndex(n: nat) returns (i: nat)
    requires n > 0
    ensures i < n
  {
    i :| 0 <= i < n;
  }

  /** No two CIDs share an array. */
  ghost predicate Separate(m: map<Cid, Slice>) {
    && (forall c :: c in m ==> ValidSlice(m[c]))
    && (forall c, d :: c in m && d in m && c != d ==> m[c].data != m[d].data)
  }

  ghost function ArraysOf(m: map<Cid, Slice>): set<array<string>> {
    set c | c in m :: m[c].data
  }

  ghost function ListsOf(m: map<Cid, Slice>): Lists
    requires Separate(m)
    reads ArraysOf(m)
  {
    map c | c in m :: Contents(m[c])
  }

  /** The slice of n may have been edited in place or be a new one; the others have kept their contents. */
  lemma StoreOne(m: map<Cid, Slice>, n: Cid, t: Slice, lists: Lists)
    requires Separate(m) && ValidSlice(t) && m.Keys == lists.Keys
    requires forall c :: c in m && c != n ==> m[c].data != t.data && Contents(m[c]) == lists[c]
    ensures Separate(m[n := t]) && ListsOf(m[n := t]) == lists[n := Contents(t)]
  {
  }

  class BlockRequestTracker {
    var requests: map<Cid, Slice>

    ghost function View(): Lists
      requires Separate(requests)
      reads this, ArraysOf(requests)
    {
      ListsOf(requests)
    }

    ghost predicate Valid()
      reads this, ArraysOf(requests)
    {
      Separate(requests) && Sound(View())
    }

    constructor ()
      ensures Valid() && View() == map[] && requests == map[]
    {
      requests := map[];
    }

    method DropList(n: Cid)
      requires Separate(requests)
      modifies this
      ensures requests == old(requests) - {n} && Separate(requests) && View() == old(View()) - {n}
    {
      requests := requests - {n};
    }

    /** A new peer goes to the end of the list. */
    method AddRequest(c: Cid, peer: string)
      requires Valid()
      modifies this, ArraysOf(requests)
      ensures Valid() && View() == Added(old(View()), c, peer)
      ensures fresh(ArraysOf(requests) - old(ArraysOf(requests)))
    {
      AddedPeers(View(), c, peer);
      var n := NormalizeCid(c);
      if peer == "" || n == Undef {
        return;
      }
      AddedIs(View(), c, peer);
      if n !in requests {
        AddList(n, peer);
      } else {
        var i := IndexOf(requests[n], peer);
        if i == requests[n].len {
          AppendTo(n, peer);
        }
      }
    }

    /** The first peer of a CID. */
    method AddList(n: Cid, peer: string)
      requires Separate(requests) && n !in requests
      modifies this
      ensures Separate(requests) && View() == old(View())[n := [peer]]
      ensures fresh(ArraysOf(requests) - old(ArraysOf(requests)))
    {
      ghost var lists := View();
      var one := new string[1](_ => peer);
      var t := Slice(one, 0, 1);
      assert Contents(t) == [peer];
      Replace(n, t, lists);
    }

    method AppendTo(n: Cid, peer: string)
      requires Separate(requests) && n in requests
      modifies this, requests[n].data
      ensures Separate(requests) && View() == old(View())[n := old(View())[n] + [peer]]
      ensures fresh(ArraysOf(requests) - old(ArraysOf(requests)))
    {
      ghost var lists := View();
      var t := Append(requests[n], peer);
      Replace(n, t, lists);
    }

    /** Stores the slice of n; the arrays of the others still hold what they held. */
    method Replace(n: Cid, t: Slice, ghost lists: Lists)
      requires Separate(requests) && ValidSlice(t) && requests.Keys == lists.Keys
      requires forall c :: c in requests && c != n ==> requests[c].data != t.data && Contents(requests[c]) == lists[c]
      modifies this
      ensures requests == old(requests)[n := t] && Separate(requests) && View() == lists[n := Contents(t)]
    {
      ghost var m := requests;
      requests := requests[n := t];
      StoreOne(m, n, t, lists);
    }

    /** Takes the i-th peer out of the slice of n by a swap; the last peer takes the entry with it. */
    method SwapOut(n: Cid, i: nat)
      requires Separate(requests) && n in requests && i < requests[n].len
      modifies this, requests[n].data
      ensures Separate(requests) && View() == WithList(old(View()), n, SwapRemove(old(View())[n], i))
      ensures ArraysOf(requests) <= old(ArraysOf(requests))
    {
      if requests[n].len == 1 {
        DropList(n);
      } else {
        ghost var lists := View();
        var t := SwapRemoveAt(requests[n], i);
        Replace(n, t, lists);
        assert View() == lists[n := SwapRemove(lists[n], i)];
      }
    }

    /** The same by moving the start of the slice. */
    method DropFront(n: Cid)
      requires Separate(requests) && n in requests && requests[n].len > 0
      modifies this
      ensures Separate(requests) && View() == WithList(old(View()), n, old(View())[n][1..])
      ensures ArraysOf(requests) <= old(ArraysOf(requests))
    {
      var s := requests[n];
      if s.len == 1 {
        DropList(n);
      } else {
        var t := Slice(s.data, s.start + 1, s.len - 1);
        assert Contents(t) == Contents(s)[1..];
        Replace(n, t, View());
      }
    }

    /** The same by closing the gap. */
    method SpliceOut(n: Cid, i: nat)
      requires Separate(requests) && n in requests && i < requests[n].len
      modifies this, requests[n].data
      ensures Separate(requests) && View() == WithList(old(View()), n, Spliced(old(View())[n], i))
      ensures ArraysOf(requests) <= old(ArraysOf(requests))
    {
      if requests[n].len == 1 {
        DropList(n);
      } else {
        CloseGap(n, i);
      }
    }

    method CloseGap(n: Cid, i: nat)
      requires Separate(requests) && n in requests && i < requests[n].len
      modifies this, requests[n].data
      ensures Separate(requests) && View() == old(View())[n := Spliced(old(View())[n], i)]
      ensures ArraysOf(requests) <= old(ArraysOf(requests))
    {
      ghost var lists := View();
      var t := RemoveAt(requests[n], i);
      Replace(n, t, lists);
    }

    /** Whichever index is drawn, one present peer is returned and removed, and other lists are untouched. */
    method GetAndRemoveRandomPeer(c: Cid) returns (peer: Option<string>, ghost index: nat)
      requires Valid()
      modifies this, ArraysOf(requests)
      ensures Valid() && ArraysOf(requests) <= old(ArraysOf(requests))
      ensures peer.Some? <==> NormalizeCid(c) in old(View())
      ensures peer.None? ==> View() == old(View())
      ensures peer.Some? ==> TakenBySwap(old(View()), View(), NormalizeCid(c), index, peer.value)
    {
      index := 0;
      var n := NormalizeCid(c);
      if n !in requests || requests[n].len == 0 {
        return None, index;
      }
      var drawn := RandomIndex(requests[n].len);
      index := drawn;
      ghost var lists := View();
      SwapRemovedPeers(lists, n, drawn);
      peer := Some(requests[n].data[requests[n].start + drawn]);
      assert peer.value == lists[n][drawn];
      SwapOut(n, drawn);
      assert TakenBySwap(lists, View(), n, drawn, peer.value);
    }

    /** The peer that asked first; the array keeps it, in front of the slice. */
    method PopPeer(c: Cid) returns (peer: Option<string>)
      requires Valid()
      modifies this
      ensures Valid() && ArraysOf(requests) <= old(ArraysOf(requests))
      ensures peer.Some? <==> NormalizeCid(c) in old(View())
      ensures peer.None? ==> View() == old(View())
      ensures peer.Some? ==> TakenFirst(old(View()), View(), NormalizeCid(c), peer.value)
    {
      var n := NormalizeCid(c);
      if n !in requests || requests[n].len == 0 {
        return None;
      }
      PoppedPeers(View(), n);
      peer := Some(requests[n].data[requests[n].start]);
      DropFront(n);
    }

    /** Removes the peer from one list; the others keep their contents and their order. */
    method RemoveFrom(n: Cid, peer: string)
      requires Valid() && n in requests
      modifies this, ArraysOf(requests)
      ensures Valid() && ArraysOf(requests) <= old(ArraysOf(requests))
      ensures View() == Removed(old(View()), n, peer)
    {
      RemovedPeers(View(), n, peer);
      var i := IndexOf(requests[n], peer);
      RemovedAt(View(), n, peer, i);
      if i < requests[n].len {
        SpliceOut(n, i);
      }
    }

    method RemovePeer(c: Cid, peer: string)
      requires Valid()
      modifies this, ArraysOf(requests)
      ensures Valid() && ArraysOf(requests) <= old(ArraysOf(requests))
      ensures View() == Removed(old(View()), NormalizeCid(c), peer)
    {
      var n := NormalizeCid(c);
      if n in requests {
        RemoveFrom(n, peer);
      }
    }

    /** The peer disappears from every list. */
    method RemovePeerFromAll(peer: string)
      requires Valid()
      modifies this, ArraysOf(requests)
      ensures Valid() && ArraysOf(requests) <= old(ArraysOf(requests))
      ensures View() == RemovedFromAll(old(View()), peer)
    {
      if peer == "" {
        NothingToRemove(View(), peer);
      } else {
        RemoveEverywhere(peer);
      }
    }

    /** The walk over the map, in whatever order. */
    method RemoveEverywhere(peer: string)
      requires Valid()
      modifies this, ArraysOf(requests)
      ensures Valid() && ArraysOf(requests) <= old(ArraysOf(requests))
      ensures View() == RemovedFromAll(old(View()), peer)
    {
      ghost var lists, arrays := View(), ArraysOf(requests);
      PartlyEnds(lists, peer);
      var todo := requests.Keys;
      assert todo == lists.Keys;
      while todo != {}
        invariant Valid() && ArraysOf(requests) <= arrays
        invariant todo <= lists.Keys && View() == Partly(lists, todo, peer)
        decreases |todo|
      {
        var c :| c in todo;
        RemoveNext(c, peer, lists, todo);
        todo := todo - {c};
      }
    }

    /** One round of the walk. */
    method RemoveNext(c: Cid, peer: string, ghost lists: Lists, ghost todo: set<Cid>)
      requires Valid() && c in todo && todo <= lists.Keys && View() == Partly(lists, todo, peer)
      modifies this, ArraysOf(requests)
      ensures Valid() && ArraysOf(requests) <= old(ArraysOf(requests))
      ensures View() == Partly(lists, todo - {c}, peer)
    {
      assert c in View();
      OneMoreRemoved(lists, todo, c, peer);
      RemoveFrom(c, peer);
    }
  }
}
