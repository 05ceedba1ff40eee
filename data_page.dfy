/** The Data page: the list of the user's datasets read from `sources.json`,
    a preview table of the selected dataset, one search box filtering the list
    or the table, and the CSV download of the preview. */
module DataPage {
  import opened Common
  import opened Text
  import opened Json
  import opened Csv
  import opened Search

  /** An entry of the dataset list. */
  datatype View = View(key: string, caption: string)

  /** The table shown for the selected dataset. */
  datatype Preview = Preview(view: string, columns: seq<string>, rows: seq<Row>)

  /** The document a dataset file holds, as far as the page looks at it:
      an array of records, or anything else. */
  datatype Document = Records(rows: seq<Row>) | NotAnArray

  // ------------------------------------------------------------- the list

  /** One list entry per source key, in order; the label shows the key with
      every `_` as a space. */
  function SourceViews(sources: seq<string>): (vs: seq<View>)
    ensures |vs| == |sources|
    ensures forall i :: 0 <= i < |vs| ==> vs[i].key == sources[i]
    ensures forall i :: 0 <= i < |vs| ==> |vs[i].caption| == |sources[i]| && '_' !in vs[i].caption
    ensures forall i, j :: 0 <= i < |vs| && 0 <= j < |sources[i]| && sources[i][j] != '_' ==>
              vs[i].caption[j] == sources[i][j]
    ensures forall i :: 0 <= i < |vs| ==> vs[i].caption == ReplaceChar(sources[i], '_', ' ')
  {
    seq(|sources|, i requires 0 <= i < |sources| => View(sources[i], ReplaceChar(sources[i], '_', ' ')))
  }

  /** `(res.sources ?? []).map(...)`, and the empty list when the fetch failed. */
  function LoadedViews(res: Fetch<Option<seq<string>>>): (vs: seq<View>)
    ensures res.Failed? || res.value.None? ==> vs == []
    ensures res.Loaded? && res.value.Some? ==> vs == SourceViews(res.value.value)
  {
    match res
    case Failed(_) => []
    case Loaded(sources) => if sources.Some? then SourceViews(sources.value) else []
  }

  /** What the list filter reads of a view: its label. */
  function CaptionOf(v: View): string { v.caption }

  // ----------------------------------------------------------- the preview

  /** The preview of a loaded dataset file: for a non-empty array, the keys of
      its first record as columns and all its records as rows; otherwise no
      columns and no rows. */
  function BuildPreview(key: string, doc: Document): (p: Preview)
    ensures p.view == key
    ensures doc.Records? && doc.rows != [] ==> p.columns == Keys(doc.rows[0]) && p.rows == doc.rows
    ensures !(doc.Records? && doc.rows != []) ==> p.columns == [] && p.rows == []
  {
    if doc.Records? && doc.rows != [] then Preview(key, Keys(doc.rows[0]), doc.rows)
    else Preview(key, [], [])
  }

  /** The rows the table shows: all preview rows for a blank term (none without
      a preview), else the rows with a cell whose text contains the term. */
  function FilteredRows(q: string, preview: Option<Preview>): (r: seq<Row>)
    ensures preview.None? ==> r == []
    ensures preview.Some? && Term(q) == [] ==> r == preview.value.rows
    ensures preview.Some? ==>
              forall row :: multiset(r)[row] ==
                if Term(q) == [] || RowMatches(row, Term(q)) then multiset(preview.value.rows)[row] else 0
    ensures preview.Some? ==> Subsequence(r, preview.value.rows)
  {
    if preview.None? then [] else MatchingRows(preview.value.rows, q)
  }

  /** The preview's columns are the fields of its first record in order, so
      the first row of the table (and of the CSV text) shows that record's
      values in the order the record lists them. A parsed JSON object never
      repeats a key, hence the requirement. */
  lemma PreviewFirstRowInOrder(key: string, doc: Document, j: int)
    requires doc.Records? && doc.rows != [] && NoDup(Keys(doc.rows[0]))
    requires 0 <= j < |BuildPreview(key, doc).columns|
    ensures Get(BuildPreview(key, doc).rows[0], BuildPreview(key, doc).columns[j]) == doc.rows[0][j].value
  {
    var row := doc.rows[0];
    GetFirst(row, j);
    var i :| 0 <= i <= j && row[i].key == row[j].key && Get(row, row[j].key) == row[i].value;
    assert Keys(row)[i] == Keys(row)[j];
  }

  /** `row[row[j].key]` is the value of the first field with that key, which is
      `row[j]` itself unless an earlier field repeats the key. */
  lemma {:induction false} GetFirst(row: Row, j: int)
    requires 0 <= j < |row|
    ensures exists i :: 0 <= i <= j && row[i].key == row[j].key && Get(row, row[j].key) == row[i].value
    decreases |row|
  {
    if row[0].key != row[j].key {
      GetFirst(row[1..], j - 1);
      var i :| 0 <= i <= j - 1 && row[1..][i].key == row[j].key && Get(row[1..], row[j].key) == row[1..][i].value;
      assert row[i + 1] == row[1..][i];
    }
  }

  // ----------------------------------------------------------- the download

  /** `downloadCsv`: nothing without a preview; otherwise the CSV text of the
      preview's columns and rows, saved under the view key with each run of
      non-word characters as one `_`. */
  function DownloadCsv(preview: Option<Preview>): (d: Option<Download>)
    ensures preview.None? <==> d.None?
    ensures preview.Some? ==> d.value.text == CsvText(preview.value.columns, preview.value.rows)
    ensures preview.Some? ==> d.value.fileName == FileName(preview.value.view)
  {
    if preview.None? then None
    else Some(Download(FileName(preview.value.view), CsvText(preview.value.columns, preview.value.rows)))
  }

  /** The downloaded text of a non-empty preview reads back as its column names
      and, row by row, the text each cell shows, when no column name holds a
      quote, a comma or a line feed. */
  lemma DownloadReadsBack(key: string, rows: seq<Row>)
    requires rows != [] && |Keys(rows[0])| > 0
    requires forall j :: 0 <= j < |Keys(rows[0])| ==> !NeedsQuotes(Keys(rows[0])[j])
    ensures var d := DownloadCsv(Some(BuildPreview(key, Records(rows))));
      d.Some? && ParseCsv(d.value.text) == [Keys(rows[0])] + Table(Keys(rows[0]), rows)
  {
    CsvRoundTrip(Keys(rows[0]), rows);
  }

  // ----------------------------------------------------------- the page state

  class DataPage {
    var views: seq<View>
    var q: string
    var selected: Option<View>
    var preview: Option<Preview>
    var loading: bool
    var err: Option<string>

    /** The page as first rendered: nothing loaded, nothing selected. */
    constructor()
      ensures views == [] && q == "" && selected == None && preview == None
      ensures !loading && err == None
    {
      views := [];
      q := "";
      selected := None;
      preview := None;
      loading := false;
      err := None;
    }

    /** The answer to the `sources.json` request replaces the list. */
    method SourcesLoaded(res: Fetch<Option<seq<string>>>)
      modifies this
      ensures views == LoadedViews(res)
      ensures q == old(q) && selected == old(selected) && preview == old(preview)
      ensures loading == old(loading) && err == old(err)
    {
      views := LoadedViews(res);
    }

    /** Typing in the search box. */
    method SetQuery(text: string)
      modifies this
      ensures q == text
      ensures views == old(views) && selected == old(selected) && preview == old(preview)
      ensures loading == old(loading) && err == old(err)
    {
      q := text;
    }

    /** Clicking a dataset: it becomes the selection, the error is cleared and
        its file is requested. */
    method Select(v: View)
      modifies this
      ensures selected == Some(v) && err == None && loading
      ensures views == old(views) && q == old(q) && preview == old(preview)
    {
      selected := Some(v);
      err := None;
      loading := true;
    }

    /** The "Datasets" button: back to the list with an empty search; with no
        selection left the preview is dropped. */
    method BackToList()
      modifies this
      ensures selected == None && q == "" && preview == None
      ensures views == old(views) && loading == old(loading) && err == old(err)
    {
      selected := None;
      q := "";
      preview := None;
    }

    /** The answer to the request for dataset `key`: a document becomes the
        preview and clears the search; a failure records its message. Either
        way the page stops loading. */
    method PreviewLoaded(key: string, res: Fetch<Document>)
      modifies this
      ensures res.Loaded? ==> preview == Some(BuildPreview(key, res.value)) && q == "" && err == old(err)
      ensures res.Failed? ==> err == Some(res.message) && preview == old(preview) && q == old(q)
      ensures !loading
      ensures views == old(views) && selected == old(selected)
    {
      match res {
        case Loaded(doc) =>
          preview := Some(BuildPreview(key, doc));
          q := "";
        case Failed(message) =>
          err := Some(message);
      }
      loading := false;
    }

    /** `filteredDatasets`, the list the page shows: every view for a blank
        term, else each view whose lower-cased label contains the term, as
        often as it occurs and in list order. Each page states this for its
        own entry type; the filter itself is `Search.ByText`. */
    function ShownViews(): (r: seq<View>)
      reads this
      ensures Term(q) == [] ==> r == views
      ensures forall v :: multiset(r)[v] ==
                if Term(q) == [] || Contains(ToLower(v.caption), Term(q)) then multiset(views)[v] else 0
      ensures Subsequence(r, views)
    {
      ByText(views, CaptionOf, q)
    }

    /** The rows the table shows. */
    function ShownRows(): (r: seq<Row>)
      reads this
      ensures r == FilteredRows(q, preview)
    {
      FilteredRows(q, preview)
    }
  }
}
