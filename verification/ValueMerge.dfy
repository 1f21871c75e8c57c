/** The merge of two value streams in SearchValue (internal/protocol/ipfs/composite_routing.go:115-161). */
module ValueMerge {
  import opened Wrappers

  /** The output takes its values from the fronts of the two streams, one at a time. */
  ghost predicate IsMerge<T>(out: seq<T>, a: seq<T>, b: seq<T>) {
    if out == [] then a == [] && b == []
    else
      var front, v := out[..|out| - 1], out[|out| - 1];
      || (a != [] && a[|a| - 1] == v && IsMerge(front, a[..|a| - 1], b))
      || (b != [] && b[|b| - 1] == v && IsMerge(front, a, b[..|b| - 1]))
  }

  /** s occurs in out, in order. */
  ghost predicate Within<T>(s: seq<T>, out: seq<T>) {
    if s == [] then true
    else if out == [] then false
    else if Within(s, out[..|out| - 1]) then true
    else s[|s| - 1] == out[|out| - 1] && Within(s[..|s| - 1], out[..|out| - 1])
  }

  lemma {:induction false} WithinAll<T>(s: seq<T>, out: seq<T>, v: T)
    requires Within(s, out)
    ensures Within(s, out + [v]) && Within(s + [v], out + [v])
  {
    assert (out + [v])[..|out|] == out && (s + [v])[..|s|] == s;
  }

  lemma FromFirst<T>(out: seq<T>, a: seq<T>, b: seq<T>)
    requires out != [] && a != [] && a[|a| - 1] == out[|out| - 1]
    requires var front := out[..|out| - 1]; var rest := a[..|a| - 1];
             multiset(front) == multiset(rest) + multiset(b) && Within(rest, front) && Within(b, front)
    ensures multiset(out) == multiset(a) + multiset(b) && Within(a, out) && Within(b, out)
  {
    OneMoreValue(out[..|out| - 1], a[..|a| - 1], b, a[|a| - 1]);
    assert out == out[..|out| - 1] + [a[|a| - 1]] && a == a[..|a| - 1] + [a[|a| - 1]];
  }

  /** Every value of both streams occurs exactly once, and each stream keeps its order. */
  lemma {:induction false} MergeKeepsEverything<T>(out: seq<T>, a: seq<T>, b: seq<T>)
    requires IsMerge(out, a, b)
    ensures multiset(out) == multiset(a) + multiset(b) && Within(a, out) && Within(b, out)
  {
    if out != [] {
      var front, v := out[..|out| - 1], out[|out| - 1];
      if a != [] && a[|a| - 1] == v && IsMerge(front, a[..|a| - 1], b) {
        MergeKeepsEverything(front, a[..|a| - 1], b);
        FromFirst(out, a, b);
      } else {
        MergeKeepsEverything(front, a, b[..|b| - 1]);
        FromFirst(out, b, a);
      }
    }
  }

  lemma OneMoreValue<T>(out: seq<T>, a: seq<T>, b: seq<T>, v: T)
    requires multiset(out) == multiset(a) + multiset(b) && Within(a, out) && Within(b, out)
    ensures multiset(out + [v]) == multiset(a + [v]) + multiset(b) && Within(a + [v], out + [v]) && Within(b, out + [v])
  {
    WithinAll(a, out, v);
    WithinAll(b, out, v);
  }

  lemma MergeTakes<T>(out: seq<T>, a: seq<T>, i: nat, b: seq<T>, j: nat)
    requires i <= |a| && j <= |b| && IsMerge(out, a[..i], b[..j])
    ensures i < |a| ==> IsMerge(out + [a[i]], a[..i + 1], b[..j])
    ensures j < |b| ==> IsMerge(out + [b[j]], a[..i], b[..j + 1])
  {
    if i < |a| {
      assert (out + [a[i]])[..|out|] == out && a[..i + 1][..i] == a[..i];
    }
    if j < |b| {
      assert (out + [b[j]])[..|out|] == out && b[..j + 1][..j] == b[..j];
    }
  }

  /** The loop of the merging goroutine. A closed channel is set to nil and never chosen again; which of the
      others is chosen is left open, and so is cancellation, if it is possible at all. `taken` and `used` count
      what was passed on; a value that has been received is dropped if the context ends first. */
  method Merge<T>(sec: seq<T>, pri: seq<T>, cancellable: bool)
    returns (merged: seq<T>, taken: nat, used: nat, received: nat)
    ensures taken <= |sec| && used <= |pri| && IsMerge(merged, sec[..taken], pri[..used])
    ensures taken + used <= received <= taken + used + 1 && received <= |sec| + |pri|
    ensures !cancellable ==> IsMerge(merged, sec, pri) && received == |sec| + |pri|
  {
    merged, taken, used, received := [], 0, 0, 0;
    var secOpen, priOpen := true, true;
    var openCount := 2;
    while openCount > 0
      invariant taken <= |sec| && used <= |pri| && IsMerge(merged, sec[..taken], pri[..used])
      invariant received == taken + used
      invariant openCount == (if secOpen then 1 else 0) + (if priOpen then 1 else 0)
      invariant (!secOpen ==> taken == |sec|) && (!priOpen ==> used == |pri|)
      decreases |sec| - taken + |pri| - used + openCount
    {
      var cancelled, second, late: bool := *, *, *;
      if cancellable && cancelled {
        return;
      }
      MergeTakes(merged, sec, taken, pri, used);
      var fromSecondary := secOpen && (second || !priOpen);
      if fromSecondary && taken == |sec| {
        secOpen, openCount := false, openCount - 1;
      } else if !fromSecondary && used == |pri| {
        priOpen, openCount := false, openCount - 1;
      } else {
        received := received + 1;
        if cancellable && late {
          return;
        }
        if fromSecondary {
          merged, taken := merged + [sec[taken]], taken + 1;
        } else {
          merged, used := merged + [pri[used]], used + 1;
        }
      }
    }
    assert sec[..taken] == sec && pri[..used] == pri;
  }

  /** Both backends are asked; one that fails is left out, and only if both fail there is an error. */
  method SearchValue<T, E>(sec: Result<seq<T>, E>, pri: Result<seq<T>, E>, cancellable: bool)
    returns (r: Result<seq<T>, E>)
    ensures r.Err? <==> sec.Err? && pri.Err?
    ensures r.Err? ==> r.error == sec.error
    ensures sec.Err? && pri.Ok? ==> r == Ok(pri.value)
    ensures sec.Ok? && pri.Err? ==> r == Ok(sec.value)
    ensures sec.Ok? && pri.Ok? && !cancellable ==> IsMerge(r.value, sec.value, pri.value)
    ensures sec.Ok? && pri.Ok? ==> MergesPrefixes(r.value, sec.value, pri.value)
  {
    if sec.Err? && pri.Err? {
      return Err(sec.error);
    }
    if sec.Err? {
      return Ok(pri.value);
    }
    if pri.Err? {
      return Ok(sec.value);
    }
    var merged, taken, used, received := Merge(sec.value, pri.value, cancellable);
    return Ok(merged);
  }

  /** A cancelled merge passes on a part of each stream. */
  ghost predicate MergesPrefixes<T>(out: seq<T>, a: seq<T>, b: seq<T>) {
    exists i, j :: 0 <= i <= |a| && 0 <= j <= |b| && IsMerge(out, a[..i], b[..j])
  }
}
