/** The critical sections of DefaultDoneTracker (internal/protocol/done_tracker.go), one function each. */
module DoneTrackerSpec {
  import opened Cids

  /** A waiter's channel; it remembers the CID it was made for. */
  datatype Chan = Chan(id: nat, cid: Cid)

  datatype Waiter = Waiter(done: bool, chans: seq<Chan>)

  datatype Tracker = Tracker(waiters: map<Cid, Waiter>, completed: set<Cid>)

  const EMPTY := Tracker(map[], {})

  /** Done, up to the unlock: the new tables and the channels to close afterwards. */
  function Complete(t: Tracker, c: Cid): (Tracker, seq<Chan>) {
    if c !in t.waiters then (t.(completed := t.completed + {c}), [])
    else if t.waiters[c].done then (t, [])
    else (Tracker(t.waiters - {c}, t.completed + {c}), t.waiters[c].chans)
  }

  /** The first critical section of WaitDone: whether the CID is done already, else ch is registered. */
  function Register(t: Tracker, c: Cid, ch: Chan): (Tracker, bool) {
    if c in t.completed then (t, true)
    else
      var w := if c in t.waiters then t.waiters[c] else Waiter(false, []);
      if w.done then (t.(waiters := t.waiters[c := w]), true)
      else (t.(waiters := t.waiters[c := w.(chans := w.chans + [ch])]), false)
  }

  /** The second critical section of WaitDone, after the context was cancelled. */
  function Unregister(t: Tracker, c: Cid, ch: Chan): Tracker {
    if c !in t.waiters then t
    else
      var chans := Without(t.waiters[c].chans, ch);
      if chans == [] then t.(waiters := t.waiters - {c})
      else t.(waiters := t.waiters[c := t.waiters[c].(chans := chans)])
  }

  function DoneWaiters(t: Tracker): set<Cid> {
    set c | c in t.waiters && t.waiters[c].done
  }

  function DoneCids(t: Tracker): set<Cid> {
    t.completed + DoneWaiters(t)
  }

  /** A CID is waited for or completed, not both; waiters have channels and are not done. */
  predicate Sound(t: Tracker) {
    t.waiters.Keys !! t.completed && forall c :: c in t.waiters ==> !t.waiters[c].done && t.waiters[c].chans != []
  }

  lemma UnregisterKeepsSound(t: Tracker, c: Cid, ch: Chan)
    requires Sound(t)
    ensures Sound(Unregister(t, c, ch)) && DoneCids(Unregister(t, c, ch)) == DoneCids(t)
  {
    assert DoneWaiters(t) == {} && DoneWaiters(Unregister(t, c, ch)) == {};
  }

  lemma SoundCounts(t: Tracker)
    ensures Sound(t) ==> |DoneWaiters(t)| + |t.completed - t.waiters.Keys| == |DoneCids(t)|
  {
    if Sound(t) {
      assert DoneWaiters(t) == {};
      assert t.completed - t.waiters.Keys == t.completed == DoneCids(t);
    }
  }
}

/** The tracker itself; the caller closes the returned channels after the lock is released. */
module DoneTracker {
  import opened Cids
  import opened DoneTrackerSpec

  class DoneTracker {
    var waiters: map<Cid, Waiter>
    var completed: set<Cid>

    function View(): Tracker
      reads this
    {
      Tracker(waiters, completed)
    }

    ghost predicate Valid()
      reads this
    {
      Sound(View())
    }

    constructor ()
      ensures Valid() && View() == EMPTY
    {
      waiters, completed := map[], {};
    }

    method Complete(c: Cid) returns (waitersToClose: seq<Chan>)
      requires Valid()
      modifies this
      ensures Valid() && DoneCids(View()) == DoneCids(old(View())) + {c} && c !in waiters
      ensures waitersToClose == if c in old(waiters) then old(waiters)[c].chans else []
      ensures (View(), waitersToClose) == DoneTrackerSpec.Complete(old(View()), c)
    {
      if c !in waiters {
        completed := completed + {c};
        return [];
      }
      if waiters[c].done {
        return [];
      }
      waitersToClose := waiters[c].chans;
      completed := completed + {c};
      waiters := waiters - {c};
    }

    method Register(c: Cid, ch: Chan) returns (done: bool)
      requires Valid()
      modifies this
      ensures Valid() && (done <==> c in DoneCids(old(View()))) && DoneCids(View()) == DoneCids(old(View()))
      ensures !done ==> c in waiters && ch in waiters[c].chans
      ensures (View(), done) == DoneTrackerSpec.Register(old(View()), c, ch)
    {
      if c in completed {
        return true;
      }
      if c !in waiters {
        waiters := waiters[c := Waiter(false, [])];
      }
      assert waiters[c := waiters[c]] == waiters;
      if waiters[c].done {
        return true;
      }
      waiters := waiters[c := waiters[c].(chans := waiters[c].chans + [ch])];
      assert waiters == old(waiters)[c := waiters[c]];
      return false;
    }

    method Unregister(c: Cid, ch: Chan)
      requires Valid()
      modifies this
      ensures Valid() && DoneCids(View()) == DoneCids(old(View()))
      ensures View() == DoneTrackerSpec.Unregister(old(View()), c, ch)
    {
      UnregisterKeepsSound(View(), c, ch);
      if c in waiters {
        var chans := WithoutFirst(waiters[c].chans, ch);
        if |chans| == 0 {
          waiters := waiters - {c};
        } else {
          waiters := waiters[c := waiters[c].(chans := chans)];
        }
      }
    }

    /** The loop that looks for the channel. */
    method WithoutFirst(chans: seq<Chan>, ch: Chan) returns (rest: seq<Chan>)
      ensures rest == Without(chans, ch)
    {
      var i := 0;
      while i < |chans| && chans[i] != ch
        invariant 0 <= i <= |chans| && ch !in chans[..i]
      {
        i := i + 1;
      }
      WithoutAt(chans, ch, i);
      rest := if i < |chans| then chans[..i] + chans[i + 1..] else chans;
    }

    method Reset()
      modifies this
      ensures Valid() && View() == EMPTY
    {
      waiters, completed := map[], {};
    }

    /** Every done CID exactly once, in no particular order; the undefined CID cannot be read back from its
        key and is left out. */
    method GetDoneCIDs() returns (cids: seq<Cid>)
      ensures Distinct(cids) && Elems(cids) == DoneWaiters(View()) + (completed - {Undef})
      ensures Valid() ==> Elems(cids) == DoneCids(View()) - {Undef}
    {
      var found: set<Cid> := {};
      var todo := waiters.Keys;
      while todo != {}
        invariant todo <= waiters.Keys
        invariant found == set c | c in waiters.Keys - todo && waiters[c].done
      {
        var c :| c in todo;
        if waiters[c].done {
          found := found + {c};
        }
        todo := todo - {c};
      }
      found := found + (completed - {Undef});
      cids := [];
      while found != {}
        invariant Distinct(cids) && Elems(cids) !! found
        invariant Elems(cids) + found == DoneWaiters(View()) + (completed - {Undef})
      {
        var c :| c in found;
        assert c !in Elems(cids);
        assert Elems(cids + [c]) == Elems(cids) + {c};
        cids := cids + [c];
        found := found - {c};
      }
    }

    /** The completed CIDs without a waiter, added to a running count. */
    method CountCompleted(start: nat) returns (count: nat)
      ensures count == start + |completed - waiters.Keys|
    {
      count := start;
      var rest := completed;
      ghost var others: set<Cid> := {};
      while rest != {}
        invariant rest <= completed && count == start + |others| && others !! rest
        invariant others <= completed - waiters.Keys <= others + rest
      {
        var c :| c in rest;
        if c !in waiters {
          count := count + 1;
          others := others + {c};
        }
        rest := rest - {c};
      }
      assert others == completed - waiters.Keys;
    }

    method CountWaiters() returns (count: nat)
      ensures count == |DoneWaiters(View())|
    {
      count := 0;
      ghost var counted: set<Cid> := {};
      var todo := waiters.Keys;
      while todo != {}
        invariant todo <= waiters.Keys && count == |counted| && counted !! todo
        invariant counted <= DoneWaiters(View()) <= counted + todo
      {
        var c :| c in todo;
        if waiters[c].done {
          count := count + 1;
          counted := counted + {c};
        }
        todo := todo - {c};
      }
      assert counted == DoneWaiters(View());
    }

    /** Done waiters, and completed CIDs without a waiter; in every run these are the done CIDs. */
    method Count() returns (count: nat)
      ensures count == |DoneWaiters(View())| + |completed - waiters.Keys|
      ensures Valid() ==> count == |DoneCids(View())|
    {
      var started := CountWaiters();
      count := CountCompleted(started);
      SoundCounts(View());
    }

    method IsDone(c: Cid) returns (done: bool)
      ensures done <==> c in DoneCids(View())
    {
      done := c in completed || (c in waiters && waiters[c].done);
    }
  }
}
