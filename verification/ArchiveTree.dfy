/** collectArchiveEntries (internal/upload/car_generator.go:262-413) on values: directories are first filled
    with their files, then linked into their parents; a link holds a snapshot of the linked directory. */
module ArchiveTreeSpec {
  import opened Wrappers
  import opened Cids
  import opened ArchivePaths

  /** An immutable node; the content of a file is known by its number. */
  datatype Node = File(id: nat) | Dir(entries: map<string, Node>)

  datatype Contents =
    | Unreadable       // no info, or it does not open: skipped
    | Unusable         // no node can be made of it, or added
    | Readable(id: nat)

  /** One call of the walk function. */
  datatype WalkEntry =
    | Broken(path: string, missing: bool)
    | DirEntry(path: string, created: bool)
    | FileEntry(path: string, contents: Contents)

  /** The entries of every directory under construction. */
  type Shelves = map<string, map<string, Node>>

  /** None: the walk ends with an error. */
  function WalkOne(s: Shelves, e: WalkEntry): Option<Shelves> {
    match e
    case Broken(path, missing) => if path == ROOT && missing then Some(s) else None
    case DirEntry(path, created) =>
      if path == ROOT then Some(s) else if created then Some(s[path := map[]]) else None
    case FileEntry(path, contents) =>
      if path == ROOT || contents.Unreadable? || GetParentPath(path) !in s then Some(s)
      else if contents.Unusable? then None
      else Some(Put(s, path, File(contents.id)))
  }

  /** Adds a node to the directory that is the parent of the path. */
  function Put(s: Shelves, path: string, node: Node): Shelves
    requires GetParentPath(path) in s
  {
    s[GetParentPath(path) := s[GetParentPath(path)][BaseName(path) := node]]
  }

  function PassOne(walk: seq<WalkEntry>): Option<Shelves> {
    if walk == [] then Some(map[ROOT := map[]])
    else
      match PassOne(walk[..|walk| - 1])
      case None => None
      case Some(s) => WalkOne(s, walk[|walk| - 1])
  }

  /** Links one directory into its parent, as it is now. */
  function Link(s: Shelves, path: string, unlinkable: set<string>): Option<Shelves>
    requires path in s
  {
    if GetParentPath(path) !in s || path in unlinkable then None else Some(Put(s, path, Dir(s[path])))
  }

  function PassTwo(s: Shelves, order: seq<string>, unlinkable: set<string>): (r: Option<Shelves>)
    requires forall p :: p in order ==> p in s
    ensures r.Some? ==> r.value.Keys == s.Keys
  {
    if order == [] then Some(s)
    else
      match PassTwo(s, order[..|order| - 1], unlinkable)
      case None => None
      case Some(t) => Link(t, order[|order| - 1], unlinkable)
  }

  // ---- what the walk reports -------------------------------------------------------------------

  predicate IsDir(walk: seq<WalkEntry>, p: string) {
    p != ROOT && exists i :: 0 <= i < |walk| && walk[i].DirEntry? && walk[i].path == p
  }

  predicate HasFile(walk: seq<WalkEntry>, p: string, id: nat) {
    exists i :: 0 <= i < |walk| && walk[i] == FileEntry(p, Readable(id))
  }

  predicate IsFile(walk: seq<WalkEntry>, p: string) {
    exists i :: 0 <= i < |walk| && walk[i].FileEntry? && walk[i].path == p && walk[i].contents.Readable?
  }

  lemma FileHasId(walk: seq<WalkEntry>, p: string)
    ensures IsFile(walk, p) <==> exists id :: HasFile(walk, p, id)
  {
    if IsFile(walk, p) {
      var i :| 0 <= i < |walk| && walk[i].FileEntry? && walk[i].path == p && walk[i].contents.Readable?;
      assert HasFile(walk, p, walk[i].contents.id);
    }
  }

  /** A file system walk names every path once, and a directory before what is in it. */
  predicate ValidWalk(walk: seq<WalkEntry>) {
    && (forall i :: 0 <= i < |walk| ==> walk[i].path == ROOT || ValidPath(walk[i].path))
    && (forall i, j :: 0 <= i < j < |walk| ==> walk[i].path != walk[j].path)
    && (forall i :: 0 <= i < |walk| ==> walk[i].FileEntry? ==> walk[i].path != ROOT)
    && (forall i :: 0 <= i < |walk| && walk[i].path != ROOT ==>
                      GetParentPath(walk[i].path) == ROOT || IsDir(walk[..i], GetParentPath(walk[i].path)))
  }

  lemma ParentIsDir(walk: seq<WalkEntry>, p: string)
    requires ValidWalk(walk) && (IsDir(walk, p) || exists id :: HasFile(walk, p, id))
    ensures ValidPath(p) && (GetParentPath(p) == ROOT || IsDir(walk, GetParentPath(p)))
  {
  }

  lemma ValidPrefix(walk: seq<WalkEntry>)
    requires ValidWalk(walk) && walk != []
    ensures ValidWalk(walk[..|walk| - 1])
  {
    var front := walk[..|walk| - 1];
    assert forall i :: 0 <= i < |front| ==> front[..i] == walk[..i];
  }

  lemma NameClash(walk: seq<WalkEntry>, p: string, id: nat)
    requires ValidWalk(walk) && HasFile(walk, p, id)
    ensures !IsDir(walk, p) && forall other :: HasFile(walk, p, other) ==> other == id
  {
    var i :| 0 <= i < |walk| && walk[i] == FileEntry(p, Readable(id));
  }

  // ---- what the shelves hold -------------------------------------------------------------------

  ghost predicate KeysOk(walk: seq<WalkEntry>, s: Shelves) {
    forall p :: p in s <==> p == ROOT || IsDir(walk, p)
  }

  /** Every entry is a file of that directory, or a directory of it that has been linked. */
  ghost predicate EntriesOk(walk: seq<WalkEntry>, s: Shelves, done: set<string>) {
    forall p, n :: p in s && n in s[p] ==> EntryOk(walk, s[p][n], p, n, done)
  }

  predicate EntryOk(walk: seq<WalkEntry>, node: Node, p: string, n: string, done: set<string>) {
    && GoodName(n) && (node.File? ==> HasFile(walk, Child(p, n), node.id)) && (node.Dir? ==> Child(p, n) in done)
  }

  /** The path has an entry in its parent. */
  predicate Present(s: Shelves, q: string) {
    GetParentPath(q) in s && BaseName(q) in s[GetParentPath(q)]
  }

  ghost predicate FilesIn(walk: seq<WalkEntry>, s: Shelves) {
    forall q, id :: HasFile(walk, q, id) ==> Present(s, q)
  }

  /** Exactly the files and the linked directories have entries, in their parents. */
  ghost predicate Shelved(walk: seq<WalkEntry>, s: Shelves, done: set<string>) {
    KeysOk(walk, s) && EntriesOk(walk, s, done) && FilesIn(walk, s) && forall q :: q in done ==> Present(s, q)
  }

  /** Adding an entry touches no other. */
  lemma PutOne(s: Shelves, path: string, node: Node)
    requires GetParentPath(path) in s
    ensures var t := Put(s, path, node);
            && t.Keys == s.Keys && Present(t, path) && t[GetParentPath(path)][BaseName(path)] == node
            && (forall p, n :: p in s && (p != GetParentPath(path) || n != BaseName(path)) ==> SameEntry(s, t, p, n))
            && (forall q :: Present(s, q) ==> Present(t, q))
  {
    var t := Put(s, path, node);
    forall p, n | p in s && (p != GetParentPath(path) || n != BaseName(path)) ensures SameEntry(s, t, p, n) {
    }
  }

  predicate SameEntry(s: Shelves, t: Shelves, p: string, n: string)
    requires p in s && p in t
  {
    (n in t[p] <==> n in s[p]) && (n in s[p] ==> t[p][n] == s[p][n])
  }

  lemma WalkSteps(walk: seq<WalkEntry>)
    requires walk != []
    ensures var front, e := walk[..|walk| - 1], walk[|walk| - 1];
            && (forall p :: IsDir(walk, p) <==> IsDir(front, p) || (e.DirEntry? && e.path == p && p != ROOT))
            && (forall p, id :: HasFile(walk, p, id) <==> HasFile(front, p, id) || e == FileEntry(p, Readable(id)))
  {
  }

  /** The last path of a walk is new. */
  lemma LastIsNew(walk: seq<WalkEntry>)
    requires ValidWalk(walk) && walk != []
    ensures var front, e := walk[..|walk| - 1], walk[|walk| - 1];
            !IsDir(front, e.path) && forall id :: !HasFile(front, e.path, id)
  {
  }

  lemma FileStep(walk: seq<WalkEntry>, s: Shelves)
    requires ValidWalk(walk) && walk != [] && walk[|walk| - 1].FileEntry? && walk[|walk| - 1].contents.Readable?
    requires Shelved(walk[..|walk| - 1], s, {})
    ensures var e := walk[|walk| - 1];
            GetParentPath(e.path) in s && Shelved(walk, Put(s, e.path, File(e.contents.id)), {})
  {
    var front, e := walk[..|walk| - 1], walk[|walk| - 1];
    WalkSteps(walk);
    assert ValidPath(e.path);
    assert front == walk[..|walk| - 1];
    assert GetParentPath(e.path) == ROOT || IsDir(front, GetParentPath(e.path));
    PutOne(s, e.path, File(e.contents.id));
    var t := Put(s, e.path, File(e.contents.id));
    PartsMakeChild(e.path);
    forall p, n | p in t && n in t[p] ensures EntryOk(walk, t[p][n], p, n, {}) {
      if p == GetParentPath(e.path) && n == BaseName(e.path) {
        assert Child(p, n) == e.path;
      } else {
        assert SameEntry(s, t, p, n);
        assert EntryOk(front, s[p][n], p, n, {});
      }
    }
  }

  lemma DirStep(walk: seq<WalkEntry>, s: Shelves)
    requires ValidWalk(walk) && walk != [] && walk[|walk| - 1].DirEntry? && walk[|walk| - 1].path != ROOT
    requires Shelved(walk[..|walk| - 1], s, {})
    ensures Shelved(walk, s[walk[|walk| - 1].path := map[]], {})
  {
    var front, e := walk[..|walk| - 1], walk[|walk| - 1];
    WalkSteps(walk);
    LastIsNew(walk);
    var t := s[e.path := map[]];
    forall q, id | HasFile(walk, q, id) ensures Present(t, q) {
      assert HasFile(front, q, id);
      assert Present(s, q);
    }
    forall p, n | p in t && n in t[p] ensures EntryOk(walk, t[p][n], p, n, {}) {
      assert EntryOk(front, s[p][n], p, n, {});
    }
  }

  /** After the first pass every directory holds exactly its own files. */
  lemma {:induction false} PassOneShelves(walk: seq<WalkEntry>)
    requires ValidWalk(walk) && PassOne(walk).Some?
    ensures Shelved(walk, PassOne(walk).value, {})
  {
    if walk != [] {
      var front, e := walk[..|walk| - 1], walk[|walk| - 1];
      ValidPrefix(walk);
      PassOneShelves(front);
      var s := PassOne(front).value;
      if e.FileEntry? && e.contents.Readable? {
        FileStep(walk, s);
      } else if e.DirEntry? && e.path != ROOT {
        DirStep(walk, s);
      } else {
        WalkSteps(walk);
        assert KeysOk(walk, s);
        forall p, n | p in s && n in s[p] ensures EntryOk(walk, s[p][n], p, n, {}) {
          assert EntryOk(front, s[p][n], p, n, {});
        }
      }
    }
  }

  // ---- which walks fail ------------------------------------------------------------------------

  /** The i-th call of the walk function ends the walk: a path that cannot be looked at, unless it is the top and
      is missing; a directory that cannot be created; or a file of a directory that is known by then, of which no
      node can be made. */
  predicate Fatal(walk: seq<WalkEntry>, i: nat)
    requires i < |walk|
  {
    match walk[i]
    case Broken(path, missing) => path != ROOT || !missing
    case DirEntry(path, created) => path != ROOT && !created
    case FileEntry(path, contents) =>
      && path != ROOT && contents == Unusable
      && (GetParentPath(path) == ROOT || IsDir(walk[..i], GetParentPath(path)))
  }

  predicate HasFatal(walk: seq<WalkEntry>) {
    exists i :: 0 <= i < |walk| && Fatal(walk, i)
  }

  lemma FatalLater(walk: seq<WalkEntry>)
    requires walk != []
    ensures HasFatal(walk) <==> HasFatal(walk[..|walk| - 1]) || Fatal(walk, |walk| - 1)
  {
    var front := walk[..|walk| - 1];
    assert forall i :: 0 <= i < |front| ==> front[..i] == walk[..i] && front[i] == walk[i];
    if HasFatal(walk) {
      var i :| 0 <= i < |walk| && Fatal(walk, i);
      assert i < |front| ==> Fatal(front, i);
    }
    if HasFatal(front) {
      var i :| 0 <= i < |front| && Fatal(front, i);
      assert Fatal(walk, i);
    }
  }

  /** Whatever is walked, the first pass fails exactly at a fatal call; otherwise it knows the top and the
      directories that were reported. */
  lemma {:induction false} PassOneFailsIff(walk: seq<WalkEntry>)
    ensures PassOne(walk).None? <==> HasFatal(walk)
    ensures PassOne(walk).Some? ==> KeysOk(walk, PassOne(walk).value)
  {
    if walk != [] {
      PassOneFailsIff(walk[..|walk| - 1]);
      FatalLater(walk);
      WalkSteps(walk);
    }
  }

  // ---- resolving a path ------------------------------------------------------------------------

  function Follow(node: Node, names: seq<string>): Option<Node> {
    if names == [] then Some(node)
    else if node.Dir? && names[0] in node.entries then Follow(node.entries[names[0]], names[1..])
    else None
  }

  predicate AllGood(names: seq<string>) {
    forall i :: 0 <= i < |names| ==> GoodName(names[i])
  }

  function JoinAll(p: string, names: seq<string>): string
    decreases |names|
  {
    if names == [] then p else JoinAll(Child(p, names[0]), names[1..])
  }

  /** The names of a path. */
  function Names(p: string): seq<string>
    decreases |p|
  {
    var k := LastSlash(p);
    if k == -1 then [p] else Names(p[..k]) + [p[k + 1..]]
  }

  lemma {:induction false} JoinSnoc(p: string, names: seq<string>, n: string)
    ensures JoinAll(p, names + [n]) == Child(JoinAll(p, names), n)
    decreases |names|
  {
    var all := names + [n];
    if names == [] {
      assert all[1..] == [];
    } else {
      assert all[1..] == names[1..] + [n];
      JoinSnoc(Child(p, names[0]), names[1..], n);
    }
  }

  lemma {:induction false} NamesJoin(p: string)
    requires ValidPath(p)
    ensures Names(p) != [] && AllGood(Names(p)) && JoinAll(ROOT, Names(p)) == p
    decreases |p|
  {
    var k := LastSlash(p);
    if k == -1 {
      OneName(p);
    } else {
      NamesJoin(p[..k]);
      JoinSnoc(ROOT, Names(p[..k]), p[k + 1..]);
      ValidIsNotRoot(p[..k]);
      Rejoin(p, k);
    }
  }

  lemma OneName(p: string)
    requires ValidPath(p) && LastSlash(p) == -1
    ensures AllGood([p]) && JoinAll(ROOT, [p]) == p
  {
    assert p[0..] == p;
    assert JoinAll(ROOT, [p]) == JoinAll(Child(ROOT, p), [p][1..]);
  }

  // ---- complete snapshots ----------------------------------------------------------------------

  /** What the walk says is at the path. */
  predicate Right(walk: seq<WalkEntry>, found: Option<Node>, q: string, good: bool) {
    && (found.Some? && found.value.File? <==> good && IsFile(walk, q))
    && (found.Some? && found.value.File? ==> HasFile(walk, q, found.value.id))
    && (found.Some? && found.value.Dir? <==> good && IsDir(walk, q))
  }

  /** Below the directory p, every path resolves to what the walk reported there, and nothing else does. */
  ghost predicate Complete(walk: seq<WalkEntry>, node: Node, p: string) {
    node.Dir? && forall names :: names != [] ==> Right(walk, Follow(node, names), JoinAll(p, names), AllGood(names))
  }

  /** Every link holds a final snapshot. */
  ghost predicate Snapshots(walk: seq<WalkEntry>, s: Shelves) {
    forall p, n :: p in s && n in s[p] && s[p][n].Dir? ==> Complete(walk, s[p][n], Child(p, n))
  }

  /** Whatever is reported below a path makes it a directory. */
  lemma {:induction false} AncestorIsDir(walk: seq<WalkEntry>, p: string, names: seq<string>)
    requires ValidWalk(walk) && ValidPath(p) && AllGood(names) && names != []
    requires var q := JoinAll(p, names); IsDir(walk, q) || exists id :: HasFile(walk, q, id)
    ensures IsDir(walk, p)
    decreases |names|
  {
    var c := Child(p, names[0]);
    ChildParts(p, names[0]);
    if |names| > 1 {
      AncestorIsDir(walk, c, names[1..]);
    }
    ParentIsDir(walk, c);
    ValidIsNotRoot(p);
  }

  lemma NothingBelow(walk: seq<WalkEntry>, p: string, names: seq<string>)
    requires ValidWalk(walk) && ValidPath(p) && !IsDir(walk, p) && names != []
    ensures Right(walk, None, JoinAll(p, names), AllGood(names))
  {
    if AllGood(names) {
      var q := JoinAll(p, names);
      FileHasId(walk, q);
      if IsDir(walk, q) || IsFile(walk, q) {
        AncestorIsDir(walk, p, names);
      }
    }
  }

  /** A directory whose own entries are in place, and whose child directories have all been linked, is complete. */
  lemma FollowIsRight(walk: seq<WalkEntry>, s: Shelves, done: set<string>, p: string, names: seq<string>)
    requires ValidWalk(walk) && Shelved(walk, s, done) && Snapshots(walk, s) && p in s && names != []
    requires forall q :: q in done ==> IsDir(walk, q)
    requires forall n :: GoodName(n) && IsDir(walk, Child(p, n)) ==> Child(p, n) in done
    ensures Right(walk, Follow(Dir(s[p]), names), JoinAll(p, names), AllGood(names))
  {
    var n, rest := names[0], names[1..];
    if p != ROOT {
      ParentIsDir(walk, p);
    }
    if n in s[p] {
      EntryIsRight(walk, s, done, p, n, rest);
      assert GoodName(n);
      GoodTail(names);
    } else if GoodName(n) {
      AbsentHasNoEntry(walk, s, done, p, n);
      AbsentIsRight(walk, Child(p, n), rest);
      GoodTail(names);
    }
  }

  lemma EntryIsRight(walk: seq<WalkEntry>, s: Shelves, done: set<string>, p: string, n: string, rest: seq<string>)
    requires ValidWalk(walk) && Shelved(walk, s, done) && Snapshots(walk, s) && Dirlike(p) && p in s && n in s[p]
    requires forall q :: q in done ==> IsDir(walk, q)
    ensures GoodName(n) && Right(walk, Follow(s[p][n], rest), JoinAll(Child(p, n), rest), AllGood(rest))
  {
    assert EntryOk(walk, s[p][n], p, n, done);
    ChildParts(p, n);
    PresentIsRight(walk, s[p][n], Child(p, n), rest);
  }

  lemma AbsentHasNoEntry(walk: seq<WalkEntry>, s: Shelves, done: set<string>, p: string, n: string)
    requires ValidWalk(walk) && Shelved(walk, s, done) && p in s && Dirlike(p) && GoodName(n) && n !in s[p]
    requires IsDir(walk, Child(p, n)) ==> Child(p, n) in done
    ensures ValidPath(Child(p, n)) && !IsDir(walk, Child(p, n)) && !IsFile(walk, Child(p, n))
  {
    ChildParts(p, n);
    FileHasId(walk, Child(p, n));
  }

  lemma GoodTail(names: seq<string>)
    requires names != [] && GoodName(names[0])
    ensures AllGood(names) <==> AllGood(names[1..])
  {
  }

  lemma AbsentIsRight(walk: seq<WalkEntry>, c: string, rest: seq<string>)
    requires ValidWalk(walk) && ValidPath(c) && !IsDir(walk, c) && !IsFile(walk, c)
    ensures Right(walk, None, JoinAll(c, rest), AllGood(rest))
  {
    if rest != [] {
      NothingBelow(walk, c, rest);
    }
  }

  lemma PresentIsRight(walk: seq<WalkEntry>, node: Node, c: string, rest: seq<string>)
    requires ValidWalk(walk) && ValidPath(c)
    requires node.File? ==> HasFile(walk, c, node.id)
    requires node.Dir? ==> IsDir(walk, c) && Complete(walk, node, c)
    ensures Right(walk, Follow(node, rest), JoinAll(c, rest), AllGood(rest))
  {
    if node.File? {
      NameClash(walk, c, node.id);
      FileHasId(walk, c);
      if rest != [] {
        NothingBelow(walk, c, rest);
      }
    } else if rest == [] {
      FileHasId(walk, c);
      forall id | HasFile(walk, c, id) ensures false {
        NameClash(walk, c, id);
      }
    }
  }

  // ---- the second pass: linking ----------------------------------------------------------------

  lemma LinkShelves(walk: seq<WalkEntry>, s: Shelves, done: set<string>, r: string)
    requires ValidWalk(walk) && Shelved(walk, s, done) && IsDir(walk, r) && GetParentPath(r) in s && r in s
    ensures Shelved(walk, Put(s, r, Dir(s[r])), done + {r})
  {
    var t: Shelves := Put(s, r, Dir(s[r]));
    PutOne(s, r, Dir(s[r]));
    ParentIsDir(walk, r);
    PartsMakeChild(r);
    forall p, n | p in t && n in t[p] ensures EntryOk(walk, t[p][n], p, n, done + {r}) {
      if p != GetParentPath(r) || n != BaseName(r) {
        assert SameEntry(s, t, p, n);
        assert EntryOk(walk, s[p][n], p, n, done);
      }
    }
  }

  lemma LinkSnapshots(walk: seq<WalkEntry>, s: Shelves, done: set<string>, r: string)
    requires ValidWalk(walk) && Shelved(walk, s, done) && Snapshots(walk, s)
    requires IsDir(walk, r) && GetParentPath(r) in s && r in s
    requires forall q :: q in done ==> IsDir(walk, q)
    requires forall n :: GoodName(n) && IsDir(walk, Child(r, n)) ==> Child(r, n) in done
    ensures Snapshots(walk, Put(s, r, Dir(s[r])))
  {
    var t: Shelves := Put(s, r, Dir(s[r]));
    PutOne(s, r, Dir(s[r]));
    ParentIsDir(walk, r);
    PartsMakeChild(r);
    assert Complete(walk, Dir(s[r]), r) by {
      forall names | names != [] ensures Right(walk, Follow(Dir(s[r]), names), JoinAll(r, names), AllGood(names)) {
        FollowIsRight(walk, s, done, r, names);
      }
    }
    forall p: string, n: string | p in t && n in t[p] && t[p][n].Dir? ensures Complete(walk, t[p][n], Child(p, n)) {
      if p != GetParentPath(r) || n != BaseName(r) {
        assert SameEntry(s, t, p, n);
      }
    }
  }

  /** The directories to link, each once. */
  ghost predicate IsOrder(walk: seq<WalkEntry>, order: seq<string>) {
    && (forall p :: p in order <==> IsDir(walk, p))
    && Distinct(order)
  }

  /** Every directory comes before its parent. */
  predicate ChildrenFirst(order: seq<string>) {
    forall i, j :: 0 <= i < |order| && 0 <= j < |order| && GetParentPath(order[i]) == order[j] ==> i < j
  }

  lemma ChildrenAreDone(walk: seq<WalkEntry>, order: seq<string>, k: nat, n: string)
    requires ValidWalk(walk) && IsOrder(walk, order) && ChildrenFirst(order) && k < |order|
    requires GoodName(n) && IsDir(walk, Child(order[k], n))
    ensures Child(order[k], n) in order[..k]
  {
    var c := Child(order[k], n);
    assert order[k] in order;
    ParentIsDir(walk, order[k]);
    ChildParts(order[k], n);
    var i :| 0 <= i < |order| && order[i] == c;
    assert order[..k][i] == c;
  }

  lemma {:induction false} PassTwoShelves(walk: seq<WalkEntry>, s: Shelves, order: seq<string>, unlinkable: set<string>)
    requires ValidWalk(walk) && Shelved(walk, s, {}) && forall p :: p in order ==> IsDir(walk, p)
    requires PassTwo(s, order, unlinkable).Some?
    ensures Shelved(walk, PassTwo(s, order, unlinkable).value, Elems(order))
  {
    if order == [] {
      assert Elems(order) == {};
    } else {
      var front, r := order[..|order| - 1], order[|order| - 1];
      PassTwoShelves(walk, s, front, unlinkable);
      assert r in order;
      LinkOne(walk, PassTwo(s, front, unlinkable).value, front, r, unlinkable);
      assert order == front + [r];
    }
  }

  lemma LinkOne(walk: seq<WalkEntry>, s: Shelves, front: seq<string>, r: string, unlinkable: set<string>)
    requires ValidWalk(walk) && Shelved(walk, s, Elems(front)) && IsDir(walk, r) && r in s
    requires Link(s, r, unlinkable).Some?
    ensures Shelved(walk, Link(s, r, unlinkable).value, Elems(front + [r]))
  {
    LinkShelves(walk, s, Elems(front), r);
    ElemsSnoc(front, r);
  }

  lemma ElemsSnoc(front: seq<string>, r: string)
    ensures Elems(front + [r]) == Elems(front) + {r}
  {
  }

  lemma {:induction false} PassTwoSnapshots(walk: seq<WalkEntry>, s: Shelves, order: seq<string>, k: nat,
                                            unlinkable: set<string>)
    requires ValidWalk(walk) && Shelved(walk, s, {}) && k <= |order| && IsOrder(walk, order) && ChildrenFirst(order)
    requires PassTwo(s, order[..k], unlinkable).Some?
    ensures Snapshots(walk, PassTwo(s, order[..k], unlinkable).value)
  {
    if k > 0 {
      var front := order[..k - 1];
      assert order[..k][..k - 1] == front && forall p :: p in front ==> p in order;
      PassTwoShelves(walk, s, front, unlinkable);
      PassTwoSnapshots(walk, s, order, k - 1, unlinkable);
      SnapshotStep(walk, PassTwo(s, front, unlinkable).value, order, k - 1, unlinkable);
    } else {
      assert order[..k] == [];
      NoSnapshots(walk, s);
    }
  }

  lemma NoSnapshots(walk: seq<WalkEntry>, s: Shelves)
    requires Shelved(walk, s, {})
    ensures Snapshots(walk, s)
  {
    forall p: string, n: string | p in s && n in s[p] ensures !s[p][n].Dir? {
      assert EntryOk(walk, s[p][n], p, n, {});
    }
  }

  lemma SnapshotStep(walk: seq<WalkEntry>, s: Shelves, order: seq<string>, k: nat, unlinkable: set<string>)
    requires ValidWalk(walk) && k < |order| && IsOrder(walk, order) && ChildrenFirst(order)
    requires Shelved(walk, s, Elems(order[..k])) && Snapshots(walk, s)
    requires order[k] in s && Link(s, order[k], unlinkable).Some?
    ensures Snapshots(walk, Link(s, order[k], unlinkable).value)
  {
    var r := order[k];
    assert r in order && forall q :: q in order[..k] ==> q in order;
    forall n | GoodName(n) && IsDir(walk, Child(r, n)) ensures Child(r, n) in Elems(order[..k]) {
      ChildrenAreDone(walk, order, k, n);
    }
    LinkSnapshots(walk, s, Elems(order[..k]), r);
  }

  /** The tree below the top directory. */
  function Tree(s: Shelves): Node {
    if ROOT in s then Dir(s[ROOT]) else Dir(map[])
  }

  /** Both passes, with the directories linked in the given order. */
  function Build(walk: seq<WalkEntry>, order: seq<string>, unlinkable: set<string>): Option<Node> {
    match PassOne(walk)
    case None => None
    case Some(s) =>
      if exists p :: p in order && p !in s then None
      else
        match PassTwo(s, order, unlinkable)
        case None => None
        case Some(t) => Some(Tree(t))
  }

  /** In the finished tree every walked path resolves to its own file or to a directory, and nothing else
      resolves to anything, if every directory was linked before its parent. */
  lemma TreeIsComplete(walk: seq<WalkEntry>, order: seq<string>, unlinkable: set<string>)
    requires ValidWalk(walk) && IsOrder(walk, order) && ChildrenFirst(order) && Build(walk, order, unlinkable).Some?
    ensures Complete(walk, Build(walk, order, unlinkable).value, ROOT)
  {
    PassOneShelves(walk);
    var s := PassOne(walk).value;
    assert order[..|order|] == order;
    PassTwoShelves(walk, s, order, unlinkable);
    PassTwoSnapshots(walk, s, order, |order|, unlinkable);
    var t := PassTwo(s, order, unlinkable).value;
    forall names | names != [] ensures Right(walk, Follow(Dir(t[ROOT]), names), JoinAll(ROOT, names), AllGood(names)) {
      FollowIsRight(walk, t, Elems(order), ROOT, names);
    }
  }

  /** The order the source uses. */
  lemma SortedOrderIsChildrenFirst(walk: seq<WalkEntry>, order: seq<string>)
    requires ValidWalk(walk) && IsOrder(walk, order) && SortedByDepth(order)
    ensures ChildrenFirst(order)
  {
    forall i, j | 0 <= i < |order| && 0 <= j < |order| && GetParentPath(order[i]) == order[j] ensures i < j {
      assert order[i] in order && order[j] in order;
      ParentIsDir(walk, order[i]);
      PartsMakeChild(order[i]);
      ChildIsBelow(order[j], BaseName(order[i]));
      DescendantsFirst(order, i, j);
    }
  }

  lemma ChildIsBelow(p: string, n: string)
    requires p != ROOT
    ensures Below(Child(p, n), p)
  {
  }

  /** The second pass fails only where a node cannot be made or added. */
  lemma {:induction false} PassTwoSucceeds(walk: seq<WalkEntry>, s: Shelves, order: seq<string>,
                                           unlinkable: set<string>)
    requires ValidWalk(walk) && KeysOk(walk, s) && forall p :: p in order ==> IsDir(walk, p)
    ensures PassTwo(s, order, unlinkable).Some? <==> forall p :: p in order ==> p !in unlinkable
  {
    if order != [] {
      var front, r := order[..|order| - 1], order[|order| - 1];
      PassTwoSucceeds(walk, s, front, unlinkable);
      assert r in order;
      ParentIsDir(walk, r);
      assert forall p :: p in order <==> p in front || p == r;
    }
  }

  // ---- the order is needed ---------------------------------------------------------------------

  /** The directory q cannot be found from the strict ancestors of its parent. */
  ghost predicate Lost(s: Shelves, q: string) {
    forall a, names :: a in s && |names| >= 2 && AllGood(names) && JoinAll(a, names) == q ==>
                         Follow(Dir(s[a]), names) == None
  }

  lemma LinkKeepsLost(walk: seq<WalkEntry>, s: Shelves, done: set<string>, r: string, q: string)
    requires ValidWalk(walk) && Shelved(walk, s, done) && Lost(s, q) && IsDir(walk, q) && IsDir(walk, r)
    requires GetParentPath(r) in s && r in s
    requires GetParentPath(q) == r ==> q !in done
    ensures Lost(Put(s, r, Dir(s[r])), q)
  {
    var t: Shelves := Put(s, r, Dir(s[r]));
    forall a, names | a in t && |names| >= 2 && AllGood(names) && JoinAll(a, names) == q
      ensures Follow(Dir(t[a]), names) == None
    {
      if a == GetParentPath(r) && names[0] == BaseName(r) {
        LostAtLink(walk, s, done, r, q, names);
      } else {
        PutOne(s, r, Dir(s[r]));
        FollowSame(s, t, a, names);
      }
    }
  }

  lemma LostAtLink(walk: seq<WalkEntry>, s: Shelves, done: set<string>, r: string, q: string, names: seq<string>)
    requires ValidWalk(walk) && Shelved(walk, s, done) && Lost(s, q) && IsDir(walk, q) && IsDir(walk, r)
    requires GetParentPath(r) in s && r in s
    requires GetParentPath(q) == r ==> q !in done
    requires |names| >= 2 && AllGood(names) && JoinAll(GetParentPath(r), names) == q && names[0] == BaseName(r)
    ensures Follow(Dir(Put(s, r, Dir(s[r]))[GetParentPath(r)]), names) == None
  {
    ParentIsDir(walk, r);
    PartsMakeChild(r);
    LostThrough(walk, s, done, r, q, names[1..]);
  }

  lemma FollowSame(s: Shelves, t: Shelves, a: string, names: seq<string>)
    requires a in s && a in t && names != [] && SameEntry(s, t, a, names[0])
    ensures Follow(Dir(t[a]), names) == Follow(Dir(s[a]), names)
  {
  }

  lemma LostThrough(walk: seq<WalkEntry>, s: Shelves, done: set<string>, r: string, q: string, names: seq<string>)
    requires ValidWalk(walk) && Shelved(walk, s, done) && Lost(s, q) && IsDir(walk, q) && IsDir(walk, r) && r in s
    requires GetParentPath(q) == r ==> q !in done
    requires names != [] && AllGood(names) && JoinAll(r, names) == q
    ensures Follow(Dir(s[r]), names) == None
  {
    if |names| == 1 {
      ParentIsDir(walk, r);
      ChildParts(r, names[0]);
      assert JoinAll(r, names) == Child(r, names[0]);
      if names[0] in s[r] {
        assert EntryOk(walk, s[r][names[0]], r, names[0], done);
        NameClash(walk, q, s[r][names[0]].id);
      }
    }
  }

  /** At first no directory is linked at all. */
  lemma LostAtFirst(walk: seq<WalkEntry>, s: Shelves, q: string)
    requires ValidWalk(walk) && Shelved(walk, s, {})
    ensures Lost(s, q)
  {
  }

  lemma {:induction false} LateIsLost(walk: seq<WalkEntry>, s: Shelves, order: seq<string>, k: nat,
                                      unlinkable: set<string>, i: nat, j: nat)
    requires ValidWalk(walk) && Shelved(walk, s, {}) && IsOrder(walk, order) && k <= |order|
    requires j <= i < |order| && GetParentPath(order[i]) == order[j]
    requires PassTwo(s, order[..k], unlinkable).Some?
    ensures Lost(PassTwo(s, order[..k], unlinkable).value, order[i])
  {
    if k == 0 {
      LostAtFirst(walk, s, order[i]);
    } else {
      assert order[..k][..k - 1] == order[..k - 1];
      LateIsLost(walk, s, order, k - 1, unlinkable, i, j);
      assert forall p :: p in order[..k - 1] ==> p in order;
      PassTwoShelves(walk, s, order[..k - 1], unlinkable);
      LateStep(walk, PassTwo(s, order[..k - 1], unlinkable).value, order, k, unlinkable, i, j);
    }
  }

  lemma LateStep(walk: seq<WalkEntry>, s: Shelves, order: seq<string>, k: nat, unlinkable: set<string>, i: nat, j: nat)
    requires ValidWalk(walk) && IsOrder(walk, order) && 0 < k <= |order|
    requires j <= i < |order| && GetParentPath(order[i]) == order[j]
    requires Shelved(walk, s, Elems(order[..k - 1])) && Lost(s, order[i])
    requires order[k - 1] in s && Link(s, order[k - 1], unlinkable).Some?
    ensures Lost(Link(s, order[k - 1], unlinkable).value, order[i])
  {
    assert order[k - 1] in order && order[i] in order;
    LinkKeepsLost(walk, s, Elems(order[..k - 1]), order[k - 1], order[i]);
  }

  /** So the tree is complete exactly when every directory is linked before its parent. */
  lemma CompleteIffChildrenFirst(walk: seq<WalkEntry>, order: seq<string>, unlinkable: set<string>)
    requires ValidWalk(walk) && IsOrder(walk, order) && Build(walk, order, unlinkable).Some?
    ensures Complete(walk, Build(walk, order, unlinkable).value, ROOT) <==> ChildrenFirst(order)
  {
    if ChildrenFirst(order) {
      TreeIsComplete(walk, order, unlinkable);
    } else {
      PassOneShelves(walk);
      var s := PassOne(walk).value;
      var i, j :| 0 <= i < |order| && 0 <= j < |order| && GetParentPath(order[i]) == order[j] && j <= i;
      assert order[..|order|] == order;
      LateIsLost(walk, s, order, |order|, unlinkable, i, j);
      LostIsIncomplete(walk, PassTwo(s, order, unlinkable).value, order[i], order[j]);
    }
  }

  /** The build fails exactly at a fatal call of the walk, or where a directory cannot be linked. */
  lemma BuildSucceeds(walk: seq<WalkEntry>, order: seq<string>, unlinkable: set<string>)
    requires ValidWalk(walk) && IsOrder(walk, order)
    ensures Build(walk, order, unlinkable).Some? <==> !HasFatal(walk) && forall p :: IsDir(walk, p) ==> p !in unlinkable
  {
    PassOneFailsIff(walk);
    if PassOne(walk).Some? {
      PassOneShelves(walk);
      PassTwoSucceeds(walk, PassOne(walk).value, order, unlinkable);
    }
  }

  lemma LostIsIncomplete(walk: seq<WalkEntry>, s: Shelves, q: string, p: string)
    requires ValidWalk(walk) && IsDir(walk, q) && IsDir(walk, p) && GetParentPath(q) == p && Lost(s, q) && ROOT in s
    ensures !Complete(walk, Dir(s[ROOT]), ROOT)
  {
    ParentIsDir(walk, q);
    ParentIsDir(walk, p);
    NamesJoin(q);
    ValidIsNotRoot(q);
    var names := Names(q);
    assert !Right(walk, Follow(Dir(s[ROOT]), names), JoinAll(ROOT, names), AllGood(names));
  }
}

/** The builder itself, over mutable directories. */
module ArchiveTree {
  import opened Wrappers
  import opened Cids
  import opened ArchivePaths
  import opened ArchiveTreeSpec

  /** A directory under construction. */
  class Directory {
    var entries: map<string, Node>

    constructor ()
      ensures entries == map[]
    {
      entries := map[];
    }

    method AddChild(name: string, node: Node)
      modifies this
      ensures entries == old(entries)[name := node]
    {
      entries := entries[name := node];
    }

    /** A snapshot: later children do not show in it. */
    function GetNode(): Node
      reads this
    {
      Dir(entries)
    }
  }

  /** No two paths share a directory object. */
  ghost predicate Separate(dirs: map<string, Directory>) {
    forall p, q :: p in dirs && q in dirs && p != q ==> dirs[p] != dirs[q]
  }

  ghost function View(dirs: map<string, Directory>): Shelves
    reads dirs.Values
  {
    map p | p in dirs :: dirs[p].entries
  }

  /** Adds a node to the parent of the path. */
  method AddToParent(dirs: map<string, Directory>, path: string, node: Node)
    requires Separate(dirs) && GetParentPath(path) in dirs
    modifies dirs[GetParentPath(path)]
    ensures View(dirs) == Put(old(View(dirs)), path, node)
  {
    dirs[GetParentPath(path)].AddChild(BaseName(path), node);
  }

  /** The first pass. */
  method WalkArchive(walk: seq<WalkEntry>) returns (dirs: map<string, Directory>, ok: bool)
    ensures ok <==> PassOne(walk).Some?
    ensures (forall p :: p in dirs ==> fresh(dirs[p])) && Separate(dirs) && (ok ==> View(dirs) == PassOne(walk).value)
  {
    var rootDir := new Directory();
    dirs := map[ROOT := rootDir];
    assert View(dirs) == map[ROOT := map[]];
    var i := 0;
    while i < |walk|
      invariant 0 <= i <= |walk| && Separate(dirs) && forall p :: p in dirs ==> fresh(dirs[p])
      invariant PassOne(walk[..i]) == Some(View(dirs))
    {
      var e := walk[i];
      assert walk[..i + 1][..i] == walk[..i];
      ghost var s := View(dirs);
      match e {
        case Broken(path, missing) =>
          if path != ROOT || !missing {
            PassOneFails(walk, i + 1);
            return dirs, false;
          }
        case DirEntry(path, created) =>
          if path != ROOT {
            if !created {
              PassOneFails(walk, i + 1);
              return dirs, false;
            }
            var dir := new Directory();
            dirs := dirs[path := dir];
            assert View(dirs) == s[path := map[]];
          }
        case FileEntry(path, contents) =>
          if path != ROOT && !contents.Unreadable? && GetParentPath(path) in dirs {
            if contents.Unusable? {
              PassOneFails(walk, i + 1);
              return dirs, false;
            }
            AddToParent(dirs, path, File(contents.id));
          }
      }
      i := i + 1;
    }
    assert walk[..i] == walk;
    ok := true;
  }

  lemma {:induction false} PassOneFails(walk: seq<WalkEntry>, i: nat)
    requires i <= |walk| && PassOne(walk[..i]).None?
    ensures PassOne(walk).None?
    decreases |walk| - i
  {
    if i < |walk| {
      assert walk[..i + 1][..i] == walk[..i];
      PassOneFails(walk, i + 1);
    } else {
      assert walk[..i] == walk;
    }
  }

  lemma {:induction false} PassTwoFails(s: Shelves, order: seq<string>, i: nat, unlinkable: set<string>)
    requires i <= |order| && (forall p :: p in order ==> p in s) && PassTwo(s, order[..i], unlinkable).None?
    ensures PassTwo(s, order, unlinkable).None?
    decreases |order| - i
  {
    if i < |order| {
      assert order[..i + 1][..i] == order[..i];
      PassTwoFails(s, order, i + 1, unlinkable);
    } else {
      assert order[..i] == order;
    }
  }

  /** The paths below the top, in linking order. */
  method DirectoryPaths(paths: set<string>) returns (order: seq<string>)
    ensures SortedByDepth(order) && (forall p :: p in order <==> p in paths && p != ROOT)
    ensures Distinct(order)
  {
    var todo, list := paths - {ROOT}, [];
    while todo != {}
      invariant todo <= paths - {ROOT} && forall p :: p in list <==> p in paths - {ROOT} && p !in todo
      invariant Distinct(list)
      decreases |todo|
    {
      var p :| p in todo;
      todo, list := todo - {p}, list + [p];
    }
    var a := new string[|list|](i requires 0 <= i < |list| => list[i]);
    assert a[..] == list;
    SortDirectoriesByDepth(a);
    order := a[..];
    SameElements(list, order);
  }

  lemma SameElements(s: seq<string>, t: seq<string>)
    requires multiset(s) == multiset(t) && Distinct(s)
    ensures forall p :: p in t <==> p in s
    ensures Distinct(t)
  {
    assert forall p :: (p in s <==> p in multiset(s)) && (p in t <==> p in multiset(t));
    forall i, j | 0 <= i < j < |t| ensures t[i] != t[j] {
      if t[i] == t[j] {
        AtMostOnce(s, t[i]);
        Twice(t, i, j);
      }
    }
  }

  lemma {:induction false} AtMostOnce(s: seq<string>, x: string)
    requires Distinct(s)
    ensures multiset(s)[x] <= 1
  {
    if s != [] {
      assert s == s[..|s| - 1] + [s[|s| - 1]];
      AtMostOnce(s[..|s| - 1], x);
    }
  }

  lemma Twice(t: seq<string>, i: nat, j: nat)
    requires i < j < |t| && t[i] == t[j]
    ensures multiset(t)[t[i]] >= 2
  {
    assert t == t[..j] + [t[j]] + t[j + 1..];
    assert t[i] in t[..j];
  }

  /** Both passes. The order of linking is returned for the specification. For a walk as a file system makes
      it, every walked path of the result resolves to its own file or to a directory, and nothing else resolves
      to anything. */
  method CollectArchiveEntries(walk: seq<WalkEntry>, unlinkable: set<string>)
    returns (root: Option<Directory>, ghost order: seq<string>)
    ensures SortedByDepth(order) && Distinct(order)
    ensures root.Some? <==> Build(walk, order, unlinkable).Some?
    ensures root.Some? ==> root.value.GetNode() == Build(walk, order, unlinkable).value
    ensures ValidWalk(walk) && PassOne(walk).Some? ==> IsOrder(walk, order)
    ensures ValidWalk(walk) ==>
              (root.Some? <==> !HasFatal(walk) && forall p :: IsDir(walk, p) ==> p !in unlinkable)
    ensures ValidWalk(walk) && root.Some? ==> Complete(walk, root.value.GetNode(), ROOT)
  {
    order := [];
    PassOneFailsIff(walk);
    var dirs, ok := WalkArchive(walk);
    if !ok {
      return None, order;
    }
    RootStays(walk);
    var paths := DirectoryPaths(dirs.Keys);
    order := paths;
    if ValidWalk(walk) {
      DirectoriesAreOrder(walk, order);
      BuildSucceeds(walk, order, unlinkable);
    }
    var linked := LinkAll(dirs, paths, unlinkable);
    if linked {
      root := Some(dirs[ROOT]);
      if ValidWalk(walk) {
        SortedOrderIsChildrenFirst(walk, order);
        TreeIsComplete(walk, order, unlinkable);
      }
    } else {
      root := None;
    }
  }

  /** The second pass. */
  method LinkAll(dirs: map<string, Directory>, paths: seq<string>, unlinkable: set<string>) returns (ok: bool)
    requires Separate(dirs) && forall p :: p in paths ==> p in dirs
    modifies dirs.Values
    ensures ok <==> PassTwo(old(View(dirs)), paths, unlinkable).Some?
    ensures ok ==> View(dirs) == PassTwo(old(View(dirs)), paths, unlinkable).value
  {
    ghost var s := View(dirs);
    var i := 0;
    while i < |paths|
      invariant 0 <= i <= |paths| && PassTwo(s, paths[..i], unlinkable) == Some(View(dirs))
    {
      var path := paths[i];
      assert paths[..i + 1][..i] == paths[..i] && path in paths;
      if GetParentPath(path) !in dirs || path in unlinkable {
        PassTwoFails(s, paths, i + 1, unlinkable);
        return false;
      }
      ghost var t := View(dirs);
      AddToParent(dirs, path, dirs[path].GetNode());
      assert Some(View(dirs)) == Link(t, path, unlinkable);
      i := i + 1;
    }
    assert paths[..i] == paths;
    ok := true;
  }

  lemma {:induction false} RootStays(walk: seq<WalkEntry>)
    requires PassOne(walk).Some?
    ensures ROOT in PassOne(walk).value
  {
    if walk != [] {
      RootStays(walk[..|walk| - 1]);
    }
  }

  lemma DirectoriesAreOrder(walk: seq<WalkEntry>, order: seq<string>)
    requires ValidWalk(walk) && PassOne(walk).Some? && Distinct(order)
    requires forall p :: p in order <==> p in PassOne(walk).value && p != ROOT
    ensures IsOrder(walk, order)
  {
    PassOneShelves(walk);
  }
}
