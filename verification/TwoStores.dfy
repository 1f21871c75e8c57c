/** The same upload into two stores, in batches and block by block. */
module TwoStores {
  import opened Wrappers
  import opened ContentTables
  import opened PinTheorems
  import opened Rows
  import opened Metadata

  lemma {:induction false} PinEachFails(t: Tables, bs: seq<PinnedBlock>, i: nat)
    requires i <= |bs| && PinEach(t, bs[..i]) == None
    ensures PinEach(t, bs) == None
  {
    if i == |bs| {
      assert bs[..i] == bs;
    } else {
      assert bs[..|bs| - 1][..i] == bs[..i];
      PinEachFails(t, bs[..|bs| - 1], i);
    }
  }

  lemma {:induction false} BatchPinEachFails(t: Tables, batches: seq<seq<PinnedBlock>>, i: nat)
    requires i <= |batches| && BatchPinEach(t, batches[..i]) == None
    ensures BatchPinEach(t, batches) == None
  {
    if i == |batches| {
      assert batches[..i] == batches;
    } else {
      assert batches[..|batches| - 1][..i] == batches[..i];
      BatchPinEachFails(t, batches[..|batches| - 1], i);
    }
  }

  /** One Pin after the other, until one fails. */
  method PinOneByOne(store: MetadataStore, bs: seq<PinnedBlock>) returns (ok: bool)
    requires store.Valid()
    modifies store
    ensures store.Valid()
    ensures ok <==> PinEach(old(store.View()), bs).Some?
    ensures ok ==> store.View() == PinEach(old(store.View()), bs).value
  {
    ghost var t := store.View();
    ok := true;
    for i := 0 to |bs|
      invariant store.Valid() && ok && PinEach(t, bs[..i]) == Some(store.View())
    {
      assert bs[..i + 1][..i] == bs[..i];
      ok := store.Pin(bs[i]);
      if !ok {
        PinEachFails(t, bs, i + 1);
        return;
      }
    }
    assert bs[..|bs|] == bs;
  }

  /** One BatchPin after the other, until one fails. */
  method PinInBatches(store: MetadataStore, batches: seq<seq<PinnedBlock>>) returns (ok: bool)
    requires store.Valid()
    modifies store
    ensures store.Valid()
    ensures ok <==> BatchPinEach(old(store.View()), batches).Some?
    ensures ok ==> store.View() == BatchPinEach(old(store.View()), batches).value
  {
    ghost var t := store.View();
    ok := true;
    for i := 0 to |batches|
      invariant store.Valid() && ok && BatchPinEach(t, batches[..i]) == Some(store.View())
    {
      assert batches[..i + 1][..i] == batches[..i];
      ok := store.BatchPin(batches[i]);
      if !ok {
        BatchPinEachFails(t, batches, i + 1);
        return;
      }
    }
    assert batches[..|batches|] == batches;
  }

  /** From equal tables, an upload in batches and the same upload block by block succeed or fail together, and
      leave the same rows up to a renaming of the row ids. */
  method UploadBothWays(a: MetadataStore, b: MetadataStore, batches: seq<seq<PinnedBlock>>) returns (ok: bool)
    requires a != b && a.Valid() && b.Valid() && a.View() == b.View()
    modifies a, b
    ensures a.Valid() && b.Valid()
    ensures ok <==> BatchPinEach(old(a.View()), batches).Some?
    ensures ok ==> a.View() == b.View() && exists r :: Renames(r, a.Database(), b.Database())
  {
    ghost var t := a.View();
    BatchingIsConcatenation(t, batches);
    BatchIsSequence(t, Concat(batches));
    ok := PinInBatches(a, batches);
    var alsoOk := PinOneByOne(b, Concat(batches));
    assert alsoOk == ok;
    if ok {
      SameTablesRenames(a.Database(), b.Database());
    }
  }
}
