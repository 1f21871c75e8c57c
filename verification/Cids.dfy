/** Content identifiers (internal/protocol/encoding/encoding.go) and the de-duplication of link lists. */
module Cids {
  /** A CID is its version, its codec and its multihash, which is known by a number; `Undef` is the empty
      identifier, and 0 stands for the empty multihash. */
  datatype Cid = Undef | V0(hash: nat) | V1(codec: nat, hash: nat)

  const DAG_PROTOBUF: nat := 0x70

  /** Version 0 identifiers always name protobuf nodes; the version 1 form keeps the multihash. */
  function NormalizeCid(c: Cid): Cid {
    match c
    case V0(h) => V1(DAG_PROTOBUF, h)
    case _ => c
  }

  function MultihashOf(c: Cid): nat {
    match c
    case Undef => 0
    case V0(h) => h
    case V1(_, h) => h
  }

  /** Two identifiers of blocks share a multihash exactly when the numbers are the same, whatever their versions
      and codecs, and filing a block under its normalised identifier keeps it. */
  lemma SameMultihash(c: Cid, d: Cid)
    ensures MultihashOf(NormalizeCid(c)) == MultihashOf(c)
    ensures !c.Undef? && !d.Undef? ==> (MultihashOf(c) == MultihashOf(d) <==> c.hash == d.hash)
  {
  }

  predicate Normalized(c: Cid) {
    NormalizeCid(c) == c
  }

  function NormalizeAll(cs: seq<Cid>): (r: seq<Cid>)
    ensures |r| == |cs|
    ensures forall i :: 0 <= i < |cs| ==> r[i] == NormalizeCid(cs[i])
  {
    seq(|cs|, i requires 0 <= i < |cs| => NormalizeCid(cs[i]))
  }

  ghost predicate Distinct<T(!new)>(s: seq<T>) {
    forall i, j :: 0 <= i < j < |s| ==> s[i] != s[j]
  }

  function Elems<T>(s: seq<T>): set<T> {
    set x | x in s
  }

  /** Keeps the first occurrence of every element, in order. */
  function Uniq<T(==,!new)>(s: seq<T>): (r: seq<T>)
    ensures forall x :: x in r <==> x in s
  {
    if s == [] then []
    else
      var u := Uniq(s[..|s| - 1]);
      assert s == s[..|s| - 1] + [s[|s| - 1]];
      if s[|s| - 1] in u then u else u + [s[|s| - 1]]
  }

  lemma {:induction false} UniqIsDistinct<T(!new)>(s: seq<T>)
    ensures Distinct(Uniq(s))
  {
    if s != [] {
      UniqIsDistinct(s[..|s| - 1]);
    }
  }

  /** A list without repetitions is left alone, so preparing a block twice is preparing it once. */
  lemma {:induction false} UniqOfDistinct<T(!new)>(s: seq<T>)
    requires Distinct(s)
    ensures Uniq(s) == s
  {
    if s != [] {
      UniqOfDistinct(s[..|s| - 1]);
      assert s == s[..|s| - 1] + [s[|s| - 1]];
    }
  }

  /** The list without its first occurrence of x. */
  function Without<T(==)>(s: seq<T>, x: T): seq<T> {
    if s == [] then [] else if s[0] == x then s[1..] else [s[0]] + Without(s[1..], x)
  }

  lemma {:induction false} WithoutDistinct<T(!new)>(s: seq<T>, x: T)
    requires Distinct(s)
    ensures Distinct(Without(s, x)) && forall y :: y in Without(s, x) <==> y in s && y != x
  {
    if s != [] && s[0] != x {
      var r := Without(s[1..], x);
      WithoutDistinct(s[1..], x);
      assert s == [s[0]] + s[1..];
      assert forall i :: 0 <= i < |r| ==> r[i] in r;
    } else if s != [] {
      assert s == [s[0]] + s[1..];
    }
  }

  lemma {:induction false} WithoutAt<T(!new)>(s: seq<T>, x: T, i: nat)
    requires i <= |s| && x !in s[..i] && (i < |s| ==> s[i] == x)
    ensures Without(s, x) == if i < |s| then s[..i] + s[i + 1..] else s
  {
    if s == [] || i == 0 {
    } else {
      assert s[0] in s[..i];
      assert s[1..][..i - 1] == s[..i][1..];
      WithoutAt(s[1..], x, i - 1);
      if i < |s| {
        assert s[..i] + s[i + 1..] == [s[0]] + (s[1..][..i - 1] + s[1..][i..]);
      } else {
        assert s == [s[0]] + s[1..];
      }
    }
  }

  lemma {:induction false} DistinctSize<T(!new)>(s: seq<T>)
    requires Distinct(s)
    ensures |Elems(s)| == |s|
  {
    if s != [] {
      DistinctSize(s[..|s| - 1]);
      assert s == s[..|s| - 1] + [s[|s| - 1]];
      assert Elems(s) == Elems(s[..|s| - 1]) + {s[|s| - 1]};
    }
  }

  lemma {:induction false} SubsetOfSameSize<T>(a: set<T>, b: set<T>)
    requires a <= b && |a| == |b|
    ensures a == b
  {
    assert |b - a| == |b| - |a|;
  }
}
