/** Slash-separated archive paths, their parents, and the order in which directories are linked
    (internal/upload/common/file_utils.go:137-150, internal/upload/common/directory_utils.go). */
module ArchivePaths {
  /** The path of the archive's top. */
  const ROOT: string := "."

  /** The index of the last slash, or -1. */
  function LastSlash(p: string): (k: int)
    ensures -1 <= k < |p|
    ensures k >= 0 ==> p[k] == '/'
    ensures forall i :: k < i < |p| ==> p[i] != '/'
  {
    if p == "" then -1 else if p[|p| - 1] == '/' then |p| - 1 else LastSlash(p[..|p| - 1])
  }

  function Slashes(p: string): nat {
    if p == "" then 0 else Slashes(p[..|p| - 1]) + if p[|p| - 1] == '/' then 1 else 0
  }

  function GetParentPath(p: string): string {
    var k := LastSlash(p);
    if p == ROOT || k == -1 || p[..k] == "" then ROOT else p[..k]
  }

  /** What follows the last slash. */
  function BaseName(p: string): string {
    p[LastSlash(p) + 1..]
  }

  /** A single path element. */
  predicate GoodName(n: string) {
    n != "" && n != ROOT && '/' !in n
  }

  /** The paths a file system walk reports below its top: good names joined by slashes. */
  predicate ValidPath(p: string)
    decreases |p|
  {
    GoodName(BaseName(p)) && (LastSlash(p) == -1 || ValidPath(p[..LastSlash(p)]))
  }

  /** The path of the entry n of a directory. */
  function Child(p: string, n: string): string {
    if p == ROOT then n else p + "/" + n
  }

  predicate Dirlike(p: string) {
    p == ROOT || ValidPath(p)
  }

  lemma {:induction false} LastSlashOf(p: string, n: string)
    requires '/' !in n
    ensures LastSlash(p + "/" + n) == |p|
  {
    var k := LastSlash(p + "/" + n);
    assert (p + "/" + n)[|p|] == '/';
    assert forall i :: |p| < i < |p + "/" + n| ==> (p + "/" + n)[i] == n[i - |p| - 1];
  }

  lemma NoSlash(n: string)
    requires '/' !in n
    ensures LastSlash(n) == -1
  {
  }

  /** Parent and base name take a child path apart. */
  lemma ChildParts(p: string, n: string)
    requires Dirlike(p) && GoodName(n)
    ensures ValidPath(Child(p, n)) && GetParentPath(Child(p, n)) == p && BaseName(Child(p, n)) == n
  {
    if p == ROOT {
      NoSlash(n);
    } else {
      LastSlashOf(p, n);
      var c := p + "/" + n;
      assert c[..|p|] == p && c[|p| + 1..] == n;
      assert p != "";
    }
  }

  /** The top itself and a name without a slash, or with only a leading one, have the top as their parent; any other
      path has what comes before its last slash. */
  lemma ParentIsPrefix(p: string, n: string)
    requires '/' !in n
    ensures GetParentPath(ROOT) == GetParentPath(n) == GetParentPath("/" + n) == ROOT
    ensures p != "" ==> GetParentPath(p + "/" + n) == p
  {
    if n != ROOT {
      NoSlash(n);
    }
    LastSlashOf("", n);
    assert "" + "/" + n == "/" + n;
    LastSlashOf(p, n);
    assert (p + "/" + n)[..|p|] == p;
    assert "/" + n != ROOT by {
      assert ("/" + n)[0] == '/';
    }
    if p != "" {
      assert (p + "/" + n)[|p|] == '/';
    }
  }

  lemma ValidIsNotRoot(p: string)
    requires ValidPath(p)
    ensures p != ROOT && p != ""
  {
    NoSlash(ROOT);
    assert ROOT[0..] == ROOT;
  }

  lemma Rejoin(p: string, k: nat)
    requires k < |p| && p[k] == '/'
    ensures p == p[..k] + "/" + p[k + 1..]
  {
  }

  /** And put it together again. */
  lemma PartsMakeChild(p: string)
    requires ValidPath(p)
    ensures Dirlike(GetParentPath(p)) && GoodName(BaseName(p)) && p == Child(GetParentPath(p), BaseName(p))
  {
    ValidIsNotRoot(p);
    var k := LastSlash(p);
    if k >= 0 {
      ValidIsNotRoot(p[..k]);
      Rejoin(p, k);
    } else {
      assert p[0..] == p;
    }
  }

  // ---- the order of linking --------------------------------------------------------------------

  lemma {:induction false} SlashesAppend(p: string, q: string)
    ensures Slashes(p + q) == Slashes(p) + Slashes(q)
  {
    if q == "" {
      assert p + q == p;
    } else {
      assert (p + q)[..|p + q| - 1] == p + q[..|q| - 1];
      SlashesAppend(p, q[..|q| - 1]);
    }
  }

  predicate LexLess(p: string, q: string) {
    if q == "" then false
    else if p == "" then true
    else if p[0] != q[0] then p[0] < q[0]
    else LexLess(p[1..], q[1..])
  }

  /** Deeper paths first, alphabetically within a depth. */
  predicate Precedes(p: string, q: string) {
    if Slashes(p) != Slashes(q) then Slashes(p) > Slashes(q) else LexLess(p, q)
  }

  /** The first k characters agree, and then p ends or has the smaller character. */
  predicate SmallerAt(p: string, q: string, k: nat) {
    k <= |p| && k < |q| && p[..k] == q[..k] && (k == |p| || p[k] < q[k])
  }

  lemma {:induction false} FirstDifference(p: string, q: string)
    ensures LexLess(p, q) <==> exists k :: SmallerAt(p, q, k)
  {
    if p != "" && q != "" && p[0] == q[0] {
      FirstDifference(p[1..], q[1..]);
      if LexLess(p[1..], q[1..]) {
        var k: nat :| SmallerAt(p[1..], q[1..], k);
        assert p[..k + 1] == [p[0]] + p[1..][..k] && q[..k + 1] == [q[0]] + q[1..][..k];
        assert SmallerAt(p, q, k + 1);
      }
      forall k: nat | SmallerAt(p, q, k) ensures LexLess(p[1..], q[1..]) {
        assert k > 0 && p[1..][..k - 1] == p[..k][1..] && q[1..][..k - 1] == q[..k][1..];
        assert SmallerAt(p[1..], q[1..], k - 1);
      }
    } else if q != "" {
      assert SmallerAt(p, q, 0) <==> LexLess(p, q);
      assert forall k :: 0 < k <= |p| && k <= |q| && p[..k] == q[..k] ==> p[..k][0] == q[..k][0];
    }
  }

  lemma {:induction false} SlashesAreCounted(p: string)
    ensures Slashes(p) == multiset(p)['/']
  {
    if p != "" {
      assert p == p[..|p| - 1] + [p[|p| - 1]];
      SlashesAreCounted(p[..|p| - 1]);
    }
  }

  /** The order of linking without its helpers: more slashes first, and for the same number the path that is
      smaller at the first difference. */
  lemma DepthThenAlphabet(p: string, q: string)
    ensures Precedes(p, q) <==>
            multiset(p)['/'] > multiset(q)['/'] ||
            (multiset(p)['/'] == multiset(q)['/'] && exists k :: SmallerAt(p, q, k))
  {
    SlashesAreCounted(p);
    SlashesAreCounted(q);
    FirstDifference(p, q);
  }

  lemma {:induction false} LexTransitive(p: string, q: string, r: string)
    requires LexLess(p, q) && LexLess(q, r)
    ensures LexLess(p, r)
  {
    if p != "" && p[0] == q[0] == r[0] {
      LexTransitive(p[1..], q[1..], r[1..]);
    }
  }

  lemma {:induction false} LexTotal(p: string, q: string)
    ensures LexLess(p, q) || LexLess(q, p) || p == q
    ensures !(LexLess(p, q) && LexLess(q, p))
  {
    if p != "" && q != "" && p[0] == q[0] {
      LexTotal(p[1..], q[1..]);
      assert p == [p[0]] + p[1..] && q == [q[0]] + q[1..];
    }
  }

  predicate SortedByDepth(s: seq<string>) {
    forall i, j :: 0 <= i < j < |s| ==> !Precedes(s[j], s[i])
  }

  predicate Below(q: string, p: string) {
    |p| < |q| && q[..|p|] == p && q[|p|] == '/'
  }

  /** Every strict descendant comes before its ancestor. */
  lemma DescendantsFirst(s: seq<string>, i: nat, j: nat)
    requires SortedByDepth(s) && i < |s| && j < |s| && Below(s[i], s[j])
    ensures i < j
  {
    var q, p := s[i], s[j];
    assert q == p + "/" + q[|p| + 1..];
    SlashesAppend(p + "/", q[|p| + 1..]);
    SlashesAppend(p, "/");
    assert Slashes("/") == 1 by {
      assert "/"[..0] == "";
    }
    assert Slashes(q) > Slashes(p);
  }

  lemma SameFirst(s: seq<string>, t: seq<string>)
    requires SortedByDepth(s) && SortedByDepth(t) && s != [] && t != [] && s[0] in t && t[0] in s
    ensures s[0] == t[0]
  {
    var i :| 0 <= i < |t| && t[i] == s[0];
    var j :| 0 <= j < |s| && s[j] == t[0];
    LexTotal(s[0], t[0]);
  }

  lemma MultisetOfTail(s: seq<string>)
    requires s != []
    ensures multiset(s[1..]) == multiset(s) - multiset{s[0]} && s[0] in multiset(s)
  {
    assert s == [s[0]] + s[1..];
  }

  /** The order is total, so sorting leaves no choice. */
  lemma {:induction false} SortedIsUnique(s: seq<string>, t: seq<string>)
    requires SortedByDepth(s) && SortedByDepth(t) && multiset(s) == multiset(t)
    ensures s == t
  {
    if s != [] && t != [] {
      MultisetOfTail(s);
      MultisetOfTail(t);
      SameFirst(s, t);
      SortedIsUnique(s[1..], t[1..]);
      assert s == [s[0]] + s[1..] && t == [t[0]] + t[1..];
    } else {
      assert |multiset(s)| == |s| && |multiset(t)| == |t|;
    }
  }

  /** Sorts the slice in place, by insertion. */
  method SortDirectoriesByDepth(a: array<string>)
    modifies a
    ensures SortedByDepth(a[..]) && multiset(a[..]) == old(multiset(a[..]))
  {
    var n := 0;
    while n < a.Length
      invariant 0 <= n <= a.Length && SortedByDepth(a[..n]) && multiset(a[..]) == old(multiset(a[..]))
    {
      Insert(a, n);
      n := n + 1;
    }
    assert a[..n] == a[..];
  }

  /** The first n + 1 elements are sorted, except that element k may belong further to the front. */
  predicate SortedBut(s: seq<string>, k: nat, n: nat)
    requires k <= n < |s|
  {
    forall i, j :: 0 <= i < j <= n && j != k ==> !Precedes(s[j], s[i])
  }

  lemma SwapKeeps(s: seq<string>, k: nat, n: nat)
    requires 0 < k <= n < |s| && SortedBut(s, k, n) && Precedes(s[k], s[k - 1])
    ensures SortedBut(s[k - 1 := s[k]][k := s[k - 1]], k - 1, n)
  {
    LexTotal(s[k], s[k - 1]);
  }

  lemma InPlace(s: seq<string>, k: nat, n: nat)
    requires k <= n < |s| && SortedBut(s, k, n) && (k > 0 ==> !Precedes(s[k], s[k - 1]))
    ensures SortedByDepth(s[..n + 1])
  {
    forall i | 0 <= i < k ensures !Precedes(s[k], s[i]) {
      if i < k - 1 && Precedes(s[k], s[i]) {
        PrecedesTrans(s[k], s[i], s[k - 1]);
      }
    }
  }

  /** Moves element n to its place among the sorted elements before it. */
  method Insert(a: array<string>, n: nat)
    requires n < a.Length && SortedByDepth(a[..n])
    modifies a
    ensures SortedByDepth(a[..n + 1]) && multiset(a[..]) == old(multiset(a[..]))
  {
    var k := n;
    while k > 0 && Precedes(a[k], a[k - 1])
      invariant 0 <= k <= n && multiset(a[..]) == old(multiset(a[..]))
      invariant SortedBut(a[..], k, n)
    {
      SwapKeeps(a[..], k, n);
      ghost var s := a[..];
      a[k - 1], a[k] := a[k], a[k - 1];
      assert a[..] == s[k - 1 := s[k]][k := s[k - 1]];
      k := k - 1;
    }
    InPlace(a[..], k, n);
    assert a[..][..n + 1] == a[..n + 1];
  }

  /** What follows q in the order is not before anything that q is not before. */
  lemma PrecedesTrans(p: string, q: string, r: string)
    requires Precedes(p, q) && !Precedes(r, q)
    ensures Precedes(p, r)
  {
    if Slashes(p) == Slashes(q) == Slashes(r) {
      LexTotal(r, q);
      if LexLess(q, r) {
        LexTransitive(p, q, r);
      }
    }
  }
}
