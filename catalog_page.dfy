/** The Catalog page: three tabs of catalog items (datasets, APIs, reports)
    read from the mock files, the sorted categories of the active tab, an
    accordion that keeps at most one category open, and one search box. The
    search computes `filteredItems`, which the page reads only for the Data
    Dictionary of a selected dataset; the category lists and the popular cards
    are drawn from the tab's items whatever the search. */
module CatalogPage {
  import opened Common
  import opened Text
  import opened Search

  /** The `type` tag of an item, which is also the tab it is listed under. */
  datatype ItemKind = Data | Api | Report

  /** A column of an item's schema; `kind` is the column's `type`. */
  datatype Column = Column(name: string, kind: string, description: string)

  /** A catalog item. The optional fields are `Option`s; `columns` may be
      present and empty, which the page treats as present. */
  datatype CatalogItem = CatalogItem(
    id: string,
    name: string,
    schema: Option<string>,
    category: string,
    description: string,
    lastUpdated: string,
    size: Option<string>,
    columns: Option<seq<Column>>,
    popular: Option<bool>,
    kind: ItemKind)

  // ---------------------------------------------------------------- loading

  /** `data.map(d => ({ ...d, type: kind }))`: every item of a file tagged
      with the file's kind, nothing else about it changed. */
  function Tagged(data: seq<CatalogItem>, kind: ItemKind): (items: seq<CatalogItem>)
    ensures |items| == |data|
    ensures forall i :: 0 <= i < |items| ==> items[i].kind == kind
    ensures forall i :: 0 <= i < |items| ==> items[i].(kind := data[i].kind) == data[i]
  {
    seq(|data|, i requires 0 <= i < |data| => data[i].(kind := kind))
  }

  /** The items of a tab. */
  function ItemsFor(tab: ItemKind, datasets: seq<CatalogItem>, apis: seq<CatalogItem>, reports: seq<CatalogItem>): seq<CatalogItem>
  {
    match tab
    case Data => datasets
    case Api => apis
    case Report => reports
  }

  // ------------------------------------------------------------- categories

  function CategoriesOf(items: seq<CatalogItem>): (cs: seq<string>)
    ensures |cs| == |items|
    ensures forall i :: 0 <= i < |items| ==> cs[i] == items[i].category
  {
    seq(|items|, i requires 0 <= i < |items| => items[i].category)
  }

  /** `Array.from(new Set(items.map(d => d.category))).sort()`. */
  function Categories(items: seq<CatalogItem>): seq<string>
  {
    Sort(Dedup(CategoriesOf(items)))
  }

  /** The categories are sorted, free of repetitions, and exactly the
      categories the items have. */
  lemma CategoriesSpec(items: seq<CatalogItem>)
    ensures Sorted(Categories(items))
    ensures NoDup(Categories(items))
    ensures forall c :: c in Categories(items) <==> exists i :: 0 <= i < |items| && items[i].category == c
  {
    var distinct := Dedup(CategoriesOf(items));
    SortNoDup(distinct);
    forall c ensures c in Categories(items) <==> c in distinct {
      assert c in multiset(Categories(items)) <==> c in multiset(distinct);
    }
  }

  // ---------------------------------------------------------- the filtering

  /** The column test: name, type or description contains the term. */
  predicate ColumnMatches(c: Column, term: string)
  {
    Contains(ToLower(c.name), term) || Contains(ToLower(c.kind), term) || Contains(ToLower(c.description), term)
  }

  /** The item test of the list: name or category contains the term. */
  predicate ItemMatches(d: CatalogItem, term: string)
  {
    Contains(ToLower(d.name), term) || Contains(ToLower(d.category), term)
  }

  /** `filteredItems`. A blank search shows the items as they are, selection
      or not. With a selection and a search, the result is the selection alone;
      when it has columns, it keeps (in order, as often as they occur) exactly
      the columns whose name, type or description contains the term, and
      nothing else about it changes. Without a selection, a search keeps in
      order exactly the items whose name or category contains the term. */
  function FilteredItems(q: string, items: seq<CatalogItem>, selected: Option<CatalogItem>): (r: seq<CatalogItem>)
    ensures Term(q) == [] ==> r == items
    ensures Term(q) != [] && selected.Some? ==>
      |r| == 1 && r[0].(columns := selected.value.columns) == selected.value &&
      (selected.value.columns.None? ==> r[0] == selected.value)
    ensures Term(q) != [] && selected.Some? && selected.value.columns.Some? ==>
      r[0].columns.Some? && Subsequence(r[0].columns.value, selected.value.columns.value) &&
      (forall c :: c in r[0].columns.value <==> c in selected.value.columns.value && ColumnMatches(c, Term(q))) &&
      forall c :: multiset(r[0].columns.value)[c] ==
        if ColumnMatches(c, Term(q)) then multiset(selected.value.columns.value)[c] else 0
    ensures Term(q) != [] && selected.None? ==>
      Subsequence(r, items) && (forall d :: d in r <==> d in items && ItemMatches(d, Term(q))) &&
      forall d :: multiset(r)[d] == if ItemMatches(d, Term(q)) then multiset(items)[d] else 0
  {
    var term := Term(q);
    if term == [] then items
    else if selected.Some? then
      var s := selected.value;
      if s.columns.Some? then [s.(columns := Some(Filter(s.columns.value, c => ColumnMatches(c, term))))]
      else [s]
    else Filter(items, d => ItemMatches(d, term))
  }

  // ------------------------------------------------------ the data dictionary

  /** A selected dataset that has a `columns` field (even an empty one) gets a
      Data Dictionary table. */
  predicate HasDictionary(selected: Option<CatalogItem>)
  {
    selected.Some? && selected.value.kind == Data && selected.value.columns.Some?
  }

  /** The rows of the Data Dictionary as the page computes them,
      `filteredItems[0]?.columns`: `None` when no table is drawn, otherwise the
      rows of the table (none when that expression is undefined). */
  function DictionaryAsWritten(q: string, items: seq<CatalogItem>, selected: Option<CatalogItem>): (rows: Option<seq<Column>>)
    ensures rows.Some? <==> HasDictionary(selected)
  {
    if HasDictionary(selected) then
      var f := FilteredItems(q, items, selected);
      Some(if f == [] || f[0].columns.None? then [] else f[0].columns.value)
    else None
  }

  /** With a blank search the table lists the columns of the tab's first item,
      whichever dataset is selected. */
  lemma DictionaryShowsFirstItem(q: string, items: seq<CatalogItem>, s: CatalogItem)
    requires Term(q) == [] && items != []
    requires HasDictionary(Some(s))
    ensures DictionaryAsWritten(q, items, Some(s)) ==
              Some(if items[0].columns.None? then [] else items[0].columns.value)
  {
  }

  /** So a selected dataset whose columns differ from the first item's is shown
      the wrong dictionary until something is typed into the search box. */
  lemma DictionaryWrongItem(q: string, items: seq<CatalogItem>, s: CatalogItem)
    requires Term(q) == [] && items != []
    requires HasDictionary(Some(s))
    requires items[0].columns.Some? && items[0].columns.value != s.columns.value
    ensures DictionaryAsWritten(q, items, Some(s)) != Some(s.columns.value)
  {
    DictionaryShowsFirstItem(q, items, s);
  }

  /** The Data Dictionary as it is evidently meant to be: the selected
      dataset's own columns, all of them for a blank search, otherwise those
      whose name, type or description contains the term, in order and as often
      as they occur. */
  function Dictionary(q: string, selected: Option<CatalogItem>): (rows: Option<seq<Column>>)
    ensures rows.Some? <==> HasDictionary(selected)
    ensures HasDictionary(selected) ==> Subsequence(rows.value, selected.value.columns.value)
    ensures HasDictionary(selected) ==>
              forall c :: multiset(rows.value)[c] ==
                if Term(q) == [] || ColumnMatches(c, Term(q)) then multiset(selected.value.columns.value)[c] else 0
  {
    if HasDictionary(selected) then
      var cols := selected.value.columns.value;
      SubsequenceRefl(cols);
      var term := Term(q);
      Some(if term == [] then cols else Filter(cols, c => ColumnMatches(c, term)))
    else None
  }

  /** Once something is typed, the page's table already is the intended one. */
  lemma DictionarySearchAgrees(q: string, items: seq<CatalogItem>, selected: Option<CatalogItem>)
    requires Term(q) != []
    ensures DictionaryAsWritten(q, items, selected) == Dictionary(q, selected)
  {
  }

  // --------------------------------------------------------- the page state

  class CatalogPage {
    var datasets: seq<CatalogItem>
    var apis: seq<CatalogItem>
    var reports: seq<CatalogItem>
    var q: string
    var selected: Option<CatalogItem>
    var openCategory: Option<string>
    var activeTab: ItemKind

    /** The page as first rendered: nothing loaded, the Data tab active. */
    constructor()
      ensures datasets == [] && apis == [] && reports == []
      ensures q == "" && selected == None && openCategory == None && activeTab == Data
    {
      datasets := [];
      apis := [];
      reports := [];
      q := "";
      selected := None;
      openCategory := None;
      activeTab := Data;
    }

    /** The answer to one of the three requests fills that tab, tagged. */
    method Loaded(kind: ItemKind, data: seq<CatalogItem>)
      modifies this
      ensures kind == Data ==> datasets == Tagged(data, Data) && apis == old(apis) && reports == old(reports)
      ensures kind == Api ==> apis == Tagged(data, Api) && datasets == old(datasets) && reports == old(reports)
      ensures kind == Report ==> reports == Tagged(data, Report) && datasets == old(datasets) && apis == old(apis)
      ensures q == old(q) && selected == old(selected) && openCategory == old(openCategory)
      ensures activeTab == old(activeTab)
    {
      match kind {
        case Data => datasets := Tagged(data, Data);
        case Api => apis := Tagged(data, Api);
        case Report => reports := Tagged(data, Report);
      }
    }

    /** The items of the active tab. */
    function Items(): seq<CatalogItem>
      reads this
    {
      ItemsFor(activeTab, datasets, apis, reports)
    }

    method SetQuery(text: string)
      modifies this
      ensures q == text
      ensures datasets == old(datasets) && apis == old(apis) && reports == old(reports)
      ensures selected == old(selected) && openCategory == old(openCategory) && activeTab == old(activeTab)
    {
      q := text;
    }

    method Select(d: CatalogItem)
      modifies this
      ensures selected == Some(d)
      ensures datasets == old(datasets) && apis == old(apis) && reports == old(reports)
      ensures q == old(q) && openCategory == old(openCategory) && activeTab == old(activeTab)
    {
      selected := Some(d);
    }

    /** The "Catalog" button: no selection and an empty search. */
    method BackToCatalog()
      modifies this
      ensures selected == None && q == ""
      ensures datasets == old(datasets) && apis == old(apis) && reports == old(reports)
      ensures openCategory == old(openCategory) && activeTab == old(activeTab)
    {
      selected := None;
      q := "";
    }

    /** A tab button: the tab becomes active with no selection and an empty
        search, so `filteredItems` is then every item of that tab. */
    method SwitchTab(t: ItemKind)
      modifies this
      ensures activeTab == t && selected == None && q == ""
      ensures datasets == old(datasets) && apis == old(apis) && reports == old(reports)
      ensures openCategory == old(openCategory)
      ensures FilteredNow() == ItemsFor(t, datasets, apis, reports)
    {
      selected := None;
      q := "";
      activeTab := t;
    }

    /** A category heading: clicking the open category closes it, clicking any
        other opens it alone. */
    method ToggleCategory(cat: string)
      modifies this
      ensures old(openCategory) == Some(cat) ==> openCategory == None
      ensures old(openCategory) != Some(cat) ==> openCategory == Some(cat)
      ensures datasets == old(datasets) && apis == old(apis) && reports == old(reports)
      ensures q == old(q) && selected == old(selected) && activeTab == old(activeTab)
    {
      openCategory := if openCategory == Some(cat) then None else Some(cat);
    }

    /** `filteredItems` for the page's current state. */
    function FilteredNow(): seq<CatalogItem>
      reads this
    {
      FilteredItems(q, Items(), selected)
    }

    /** The Data Dictionary the page shows, as corrected: only ever columns
        of the selected dataset. */
    function DataDictionary(): (rows: Option<seq<Column>>)
      reads this
      ensures rows.Some? <==> HasDictionary(selected)
      ensures rows.Some? ==> forall c :: c in rows.value ==> c in selected.value.columns.value
    {
      Dictionary(q, selected)
    }
  }
}
