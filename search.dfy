/** The search boxes of the Data, Reports and APIs pages. Each computes
    `term = q.trim().toLowerCase()`; an empty term shows everything, any other
    term keeps, in order, the entries whose lower-cased text contains it. */
module Search {
  import opened Common
  import opened Text
  import opened Json

  /** `q.trim().toLowerCase()`. */
  function Term(q: string): (term: string)
    ensures |term| <= |q|
    ensures term == [] <==> forall i :: 0 <= i < |q| ==> IsSpace(q[i])
  {
    BlankIff(q);
    ToLower(Trim(q))
  }

  /** `term ? xs.filter(x => text(x).toLowerCase().includes(term)) : xs`: every
      entry kept as often as it occurs, in its order. The Data, Reports and APIs
      pages all filter their lists this way, by the entry's label. */
  function ByText<T(!new)>(xs: seq<T>, text: T -> string, q: string): (r: seq<T>)
    ensures Term(q) == [] ==> r == xs
    ensures Term(q) != [] ==> forall x :: x in r <==> x in xs && Contains(ToLower(text(x)), Term(q))
    ensures forall x :: multiset(r)[x] ==
              if Term(q) == [] || Contains(ToLower(text(x)), Term(q)) then multiset(xs)[x] else 0
    ensures Subsequence(r, xs)
  {
    SubsequenceRefl(xs);
    var term := Term(q);
    if term == [] then xs else Filter(xs, x => Contains(ToLower(text(x)), term))
  }

  /** `Object.values(row).some(val => String(val).toLowerCase().includes(term))`. */
  predicate RowMatches(row: Row, term: string)
  {
    exists v :: v in Values(row) && Contains(ToLower(StringOf(v)), term)
  }

  /** The row filter of the Data and Reports pages, for rows that are shown. */
  function MatchingRows(rows: seq<Row>, q: string): (r: seq<Row>)
    ensures Term(q) == [] ==> r == rows
    ensures Term(q) != [] ==> forall row :: row in r <==> row in rows && RowMatches(row, Term(q))
    ensures forall row :: multiset(r)[row] ==
              if Term(q) == [] || RowMatches(row, Term(q)) then multiset(rows)[row] else 0
    ensures Subsequence(r, rows)
  {
    SubsequenceRefl(rows);
    var term := Term(q);
    if term == [] then rows else Filter(rows, row => RowMatches(row, term))
  }
}
