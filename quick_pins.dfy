/** The "Quick Pin" menu of the Reports and APIs pages. Each checkbox runs
    `setPinned(prev => prev.includes(k) ? prev.filter(x => x !== k) : [...prev, k])`:
    a pinned key is unpinned, any other key is pinned at the end. */
module QuickPins {
  import opened Common
  import opened Text

  /** The test `x !== k` of the unpin branch. */
  function Other(k: string): string -> bool
  {
    x => x != k
  }

  /** The new pin list after the checkbox of `k` is clicked: whether `k` is
      pinned flips and no other key's does; an absent key is put last, after
      every earlier pin in order; a present key loses every occurrence while
      every other pin stays, as often as before and in the same order. */
  function Toggle(pins: seq<string>, k: string): (r: seq<string>)
    ensures k in r <==> k !in pins
    ensures forall x :: x != k ==> (x in r <==> x in pins)
    ensures k !in pins ==> |r| == |pins| + 1 && r[..|pins|] == pins && r[|pins|] == k
    ensures k in pins ==> Subsequence(r, pins)
    ensures k in pins ==> forall x :: x != k ==> multiset(r)[x] == multiset(pins)[x]
  {
    if k in pins then Filter(pins, Other(k)) else pins + [k]
  }

  /** Filtering keeps a list free of repetitions. */
  lemma {:induction false} FilterNoDup(xs: seq<string>, keep: string -> bool)
    requires NoDup(xs)
    ensures NoDup(Filter(xs, keep))
    decreases |xs|
  {
    if xs != [] {
      FilterNoDup(xs[1..], keep);
      var rest := Filter(xs[1..], keep);
      if keep(xs[0]) {
        assert xs[0] !in rest;
        var r := [xs[0]] + rest;
        forall i, j | 0 <= i < j < |r| ensures r[i] != r[j] {
          if i == 0 {
            assert r[j] in rest;
          } else {
            assert r[i] == rest[i - 1] && r[j] == rest[j - 1];
          }
        }
      }
    }
  }

  /** A filter that drops the last element ignores it. */
  lemma {:induction false} FilterDropLast(xs: seq<string>, k: string, keep: string -> bool)
    requires !keep(k)
    ensures Filter(xs + [k], keep) == Filter(xs, keep)
    decreases |xs|
  {
    if xs == [] {
      assert Filter([k], keep) == Filter([k][1..], keep);
    } else {
      assert (xs + [k])[1..] == xs[1..] + [k];
      FilterDropLast(xs[1..], k, keep);
    }
  }

  /** A pin list without repetitions keeps that shape under any click. */
  lemma ToggleKeepsNoDup(pins: seq<string>, k: string)
    requires NoDup(pins)
    ensures NoDup(Toggle(pins, k))
  {
    if k in pins {
      FilterNoDup(pins, Other(k));
    } else {
      var r := pins + [k];
      forall i, j | 0 <= i < j < |r| ensures r[i] != r[j] {
        if j == |pins| {
          assert r[i] in pins;
        }
      }
    }
  }

  /** Pinning and then unpinning the same key gives the original list back. */
  lemma ToggleTwice(pins: seq<string>, k: string)
    requires k !in pins
    ensures Toggle(Toggle(pins, k), k) == pins
  {
    FilterDropLast(pins, k, Other(k));
    FilterAll(pins, Other(k));
  }
}
