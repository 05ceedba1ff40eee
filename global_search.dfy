/** The search box of the home page and the navigation bar: it looks up a
    fixed index of eight portal destinations by name as the user types, and
    works either on its own query or as a controlled input of its parent. */
module GlobalSearchBox {
  import opened Common
  import opened Text

  /** The `type` of an index entry. */
  datatype SearchKind = DataEntry | ApiEntry | CatalogEntry | ReportEntry

  datatype SearchItem = SearchItem(kind: SearchKind, name: string, path: string)

  /** `searchIndex`. */
  const SearchIndex: seq<SearchItem> := [
    SearchItem(DataEntry, "Bloomberg Dataset", "/data"),
    SearchItem(DataEntry, "Macro Indicators", "/data"),
    SearchItem(ApiEntry, "HR API", "/apis"),
    SearchItem(ApiEntry, "Market Data API", "/apis"),
    SearchItem(CatalogEntry, "Finance Catalog", "/catalog"),
    SearchItem(CatalogEntry, "Tech Catalog", "/catalog"),
    SearchItem(ReportEntry, "Monthly Report", "/analytics"),
    SearchItem(ReportEntry, "Quarterly Report", "/analytics")
  ]

  /** The results for a new input: nothing for an empty input, else the index
      entries, in index order, whose lower-cased name contains the
      lower-cased input. */
  function Results(input: string): (r: seq<SearchItem>)
    ensures input == [] ==> r == []
    ensures input != [] ==> Subsequence(r, SearchIndex)
    ensures input != [] ==> forall it: SearchItem :: it in r <==> it in SearchIndex && Contains(ToLower(it.name), ToLower(input))
  {
    if |input| > 0 then Filter(SearchIndex, (it: SearchItem) => Contains(ToLower(it.name), ToLower(input))) else []
  }

  /** Typing the exact name of an index entry, in any mix of cases, lists that entry. */
  lemma ExactNameFound(i: int, input: string)
    requires 0 <= i < |SearchIndex|
    requires ToLower(input) == ToLower(SearchIndex[i].name)
    ensures SearchIndex[i] in Results(input)
  {
    var h := ToLower(SearchIndex[i].name);
    assert |input| == |h| > 0;
    ContainsInfix([], h, []);
    assert [] + h + [] == h;
  }

  class GlobalSearch {
    /** The `value` prop. */
    const value: Option<string>
    /** Whether an `onChange` prop was given. */
    const controlled: bool
    var internalQuery: string
    var results: seq<SearchItem>
    /** The texts handed to the parent's `onChange`, oldest first. */
    var notified: seq<string>
    /** The route the box sent the browser to, if any. */
    var route: Option<string>

    /** A box under its parent's control never keeps a query of its own. */
    predicate Valid()
      reads this
    {
      controlled ==> internalQuery == ""
    }

    constructor(value0: Option<string>, controlled0: bool)
      ensures value == value0 && controlled == controlled0
      ensures internalQuery == "" && results == [] && notified == [] && route == None
      ensures Valid()
    {
      value := value0;
      controlled := controlled0;
      internalQuery := "";
      results := [];
      notified := [];
      route := None;
    }

    /** `effectiveValue`: the `value` prop whenever it is given, else the own
        query, which a box under its parent's control leaves empty. */
    function EffectiveValue(): (v: string)
      reads this
      ensures value.Some? ==> v == value.value
      ensures value.None? ==> v == internalQuery
      ensures value.None? && controlled && Valid() ==> v == ""
    {
      if value.Some? then value.value else internalQuery
    }

    /** `handleChange`: the parent hears of the new text when it controls the
        box, the own query takes it otherwise; the results are recomputed. */
    method HandleChange(newValue: string)
      requires Valid()
      modifies this
      ensures Valid()
      ensures controlled ==> notified == old(notified) + [newValue] && internalQuery == old(internalQuery)
      ensures !controlled ==> internalQuery == newValue && notified == old(notified)
      ensures results == Results(newValue)
      ensures route == old(route)
    {
      if controlled {
        notified := notified + [newValue];
      } else {
        internalQuery := newValue;
      }
      results := Results(newValue);
    }

    /** `handleClear`: an empty text for the parent or the own query, and no results. */
    method HandleClear()
      requires Valid()
      modifies this
      ensures Valid()
      ensures controlled ==> notified == old(notified) + [""] && internalQuery == old(internalQuery)
      ensures !controlled ==> internalQuery == "" && notified == old(notified)
      ensures results == []
      ensures route == old(route)
    {
      if controlled {
        notified := notified + [""];
      } else {
        internalQuery := "";
      }
      results := [];
    }

    /** `handleSelect`: go to the entry's page, then clear. */
    method HandleSelect(path: string)
      requires Valid()
      modifies this
      ensures Valid()
      ensures route == Some(path) && results == []
      ensures controlled ==> notified == old(notified) + [""] && internalQuery == old(internalQuery)
      ensures !controlled ==> internalQuery == "" && notified == old(notified)
    {
      route := Some(path);
      HandleClear();
    }
  }
}
