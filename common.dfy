/** Small shared vocabulary: an optional value, the outcome of a fetch
    (the browser's I/O is never modelled, only the value it hands back),
    and the order-preserving filter that every search box of the portal uses. */
module Common {

  datatype Option<T> = None | Some(value: T)

  /** What a `fetch(...).then(r => r.json())` chain delivers to its handlers:
      either the parsed document or the message of the error that was caught. */
  datatype Fetch<T> = Failed(message: string) | Loaded(value: T)

  /** `sub` is obtained from `xs` by deleting elements, keeping the order of the rest. */
  ghost predicate Subsequence<T>(sub: seq<T>, xs: seq<T>)
    decreases |xs|
  {
    if sub == [] then true
    else if xs == [] then false
    else if sub[0] == xs[0] then Subsequence(sub[1..], xs[1..])
    else Subsequence(sub, xs[1..])
  }

  lemma {:induction false} SubsequenceRefl<T>(xs: seq<T>)
    ensures Subsequence(xs, xs)
  {
    if xs != [] {
      SubsequenceRefl(xs[1..]);
    }
  }

  /** `Array.prototype.filter`: the elements satisfying `keep`, in their original order,
      each as often as it occurs in `xs`. */
  function Filter<T(!new)>(xs: seq<T>, keep: T -> bool): (r: seq<T>)
    ensures |r| <= |xs|
    ensures Subsequence(r, xs)
    ensures forall x :: x in r <==> x in xs && keep(x)
    ensures forall x :: multiset(r)[x] == if keep(x) then multiset(xs)[x] else 0
    decreases |xs|
  {
    if xs == [] then []
    else
      var rest := Filter(xs[1..], keep);
      assert xs == [xs[0]] + xs[1..];
      if keep(xs[0]) then [xs[0]] + rest else rest
  }

  /** Keeping everything keeps the list as it is. */
  lemma {:induction false} FilterAll<T(!new)>(xs: seq<T>, keep: T -> bool)
    requires forall x :: x in xs ==> keep(x)
    ensures Filter(xs, keep) == xs
  {
    if xs != [] {
      FilterAll(xs[1..], keep);
    }
  }
}
