/** The Reports page: the report list read from `reports.json`, the data rows
    of the selected report, one search box filtering the list or the rows, the
    CSV download of the rows, and the Quick Pin menu with its pinned cards. */
module AnalyticsPage {
  import opened Common
  import opened Text
  import opened Json
  import opened Csv
  import opened Search
  import opened QuickPins

  /** A report of the list; `caption` is the report's `label`. */
  datatype Report = Report(key: string, caption: string, description: string, powerbi: string)

  /** The shapes `reports.json` is read in: an object with a `reports` array,
      a bare array, or anything else. */
  datatype ReportsDocument = WithReports(reports: seq<Report>) | ReportArray(items: seq<Report>) | Unusable

  /** The HTTP answer to a data request: its `ok` flag and the parsed body. */
  datatype DataReply = DataReply(ok: bool, body: Fetch<seq<Row>>)

  // -------------------------------------------------------------- the list

  /** The report list: `res.reports` when that is an array, else `res` when it
      is an array, else nothing; a failed request also gives nothing. */
  function LoadedReports(res: Fetch<ReportsDocument>): (rs: seq<Report>)
    ensures res.Loaded? && res.value.WithReports? ==> rs == res.value.reports
    ensures res.Loaded? && res.value.ReportArray? ==> rs == res.value.items
    ensures res.Failed? || res.value.Unusable? ==> rs == []
  {
    match res
    case Failed(_) => []
    case Loaded(doc) =>
      match doc
      case WithReports(reports) => reports
      case ReportArray(items) => items
      case Unusable => []
  }

  /** What the list filter reads of a report: its label. */
  function CaptionOf(r: Report): string { r.caption }

  /** `filteredRows`: the rows as they are without a selection or for a blank
      term, else the rows with a cell whose text contains the term. */
  function FilteredRows(q: string, selected: Option<Report>, rows: seq<Row>): (r: seq<Row>)
    ensures Term(q) == [] || selected.None? ==> r == rows
    ensures Term(q) != [] && selected.Some? ==> forall row :: row in r <==> row in rows && RowMatches(row, Term(q))
    ensures forall row :: multiset(r)[row] ==
              if Term(q) == [] || selected.None? || RowMatches(row, Term(q)) then multiset(rows)[row] else 0
    ensures Subsequence(r, rows)
  {
    SubsequenceRefl(rows);
    if selected.None? then rows else MatchingRows(rows, q)
  }

  /** What a data request delivers: a reply that is not `ok` is the error
      "Data not found", whatever its body. */
  function RowsOutcome(res: Fetch<DataReply>): (o: Fetch<seq<Row>>)
    ensures res.Failed? ==> o == Failed(res.message)
    ensures res.Loaded? && !res.value.ok ==> o == Failed("Data not found")
    ensures res.Loaded? && res.value.ok ==> o == res.value.body
  {
    match res
    case Failed(message) => Failed(message)
    case Loaded(reply) => if reply.ok then reply.body else Failed("Data not found")
  }

  // ---------------------------------------------------------- the download

  /** `downloadCsv`: nothing without rows or without a selection; otherwise the
      CSV text with the first row's keys as columns, saved under the report's
      label with each run of non-word characters as one `_`. */
  function DownloadCsv(rows: seq<Row>, selected: Option<Report>): (d: Option<Download>)
    ensures d.None? <==> rows == [] || selected.None?
    ensures d.Some? ==> d.value.text == CsvText(Keys(rows[0]), rows)
    ensures d.Some? ==> d.value.fileName == FileName(selected.value.caption)
  {
    if rows == [] || selected.None? then None
    else Some(Download(FileName(selected.value.caption), CsvText(Keys(rows[0]), rows)))
  }

  /** The downloaded text reads back as the first row's keys and, row by row,
      the text of each cell, when no key holds a quote, a comma or a line feed. */
  lemma DownloadReadsBack(rows: seq<Row>, selected: Option<Report>)
    requires rows != [] && selected.Some? && |Keys(rows[0])| > 0
    requires forall j :: 0 <= j < |Keys(rows[0])| ==> !NeedsQuotes(Keys(rows[0])[j])
    ensures DownloadCsv(rows, selected).Some?
    ensures ParseCsv(DownloadCsv(rows, selected).value.text) == [Keys(rows[0])] + Table(Keys(rows[0]), rows)
  {
    CsvRoundTrip(Keys(rows[0]), rows);
  }

  // ------------------------------------------------------- the pinned cards

  /** Some report of `rs` has key `k`. */
  predicate Keyed(rs: seq<Report>, k: string)
  {
    exists i :: 0 <= i < |rs| && rs[i].key == k
  }

  /** `reports.find(x => x.key === key)`. */
  function FindReport(reports: seq<Report>, key: string): (r: Option<Report>)
    ensures r.None? <==> !Keyed(reports, key)
    ensures r.Some? ==> r.value in reports && r.value.key == key
    decreases |reports|
  {
    if reports == [] then None
    else if reports[0].key == key then Some(reports[0])
    else
      var r := FindReport(reports[1..], key);
      assert Keyed(reports, key) <==> Keyed(reports[1..], key) by {
        if Keyed(reports, key) {
          var i :| 0 <= i < |reports| && reports[i].key == key;
          assert reports[1..][i - 1] == reports[i];
        }
        if Keyed(reports[1..], key) {
          var i :| 0 <= i < |reports[1..]| && reports[1..][i].key == key;
          assert reports[i + 1] == reports[1..][i];
        }
      }
      r
  }

  /** The cards above the list: one per pinned key, in pin order, for the keys
      that name a loaded report; the others are skipped. */
  function PinnedCards(pinned: seq<string>, reports: seq<Report>): seq<Report>
    decreases |pinned|
  {
    if pinned == [] then []
    else
      var rest := PinnedCards(pinned[1..], reports);
      match FindReport(reports, pinned[0])
      case None => rest
      case Some(r) => [r] + rest
  }

  /** Every card is a loaded report whose key is pinned, and there are no
      more cards than pins. */
  lemma {:induction false} PinnedCardsAreReports(pinned: seq<string>, reports: seq<Report>)
    ensures |PinnedCards(pinned, reports)| <= |pinned|
    ensures forall c :: c in PinnedCards(pinned, reports) ==> c in reports && c.key in pinned
    decreases |pinned|
  {
    if pinned != [] {
      PinnedCardsAreReports(pinned[1..], reports);
    }
  }

  /** A pinned key gets a card exactly when some loaded report has that key. */
  lemma {:induction false} PinnedCardsCover(pinned: seq<string>, reports: seq<Report>, k: string)
    requires k in pinned
    ensures Keyed(PinnedCards(pinned, reports), k) <==> Keyed(reports, k)
    decreases |pinned|
  {
    var cards := PinnedCards(pinned, reports);
    var rest := PinnedCards(pinned[1..], reports);
    if k != pinned[0] {
      PinnedCardsCover(pinned[1..], reports, k);
    }
    match FindReport(reports, pinned[0]) {
      case None =>
        if k == pinned[0] && Keyed(rest, k) {
          PinnedCardsAreReports(pinned[1..], reports);
        }
      case Some(r) =>
        assert cards == [r] + rest;
        if Keyed(rest, k) {
          var i :| 0 <= i < |rest| && rest[i].key == k;
          assert cards[i + 1] == rest[i];
        }
        if Keyed(cards, k) && k != pinned[0] {
          var i :| 0 <= i < |cards| && cards[i].key == k;
          assert i > 0 && rest[i - 1] == cards[i];
        }
        if k == pinned[0] {
          assert cards[0].key == k;
        }
    }
  }

  /** When every pin names a loaded report, each pin has its card. */
  lemma {:induction false} PinnedCardsAll(pinned: seq<string>, reports: seq<Report>)
    requires forall k :: k in pinned ==> Keyed(reports, k)
    ensures |PinnedCards(pinned, reports)| == |pinned|
    decreases |pinned|
  {
    if pinned != [] {
      assert pinned[0] in pinned;
      PinnedCardsAll(pinned[1..], reports);
    }
  }

  // --------------------------------------------------------- the page state

  class AnalyticsPage {
    var reports: seq<Report>
    var q: string
    var selected: Option<Report>
    var rows: seq<Row>
    var loading: bool
    var err: Option<string>
    var menuOpen: bool
    var pinned: seq<string>

    /** The page as first rendered, with the pins saved by an earlier visit. */
    constructor(saved: seq<string>)
      ensures reports == [] && q == "" && selected == None && rows == []
      ensures !loading && err == None && !menuOpen && pinned == saved
    {
      reports := [];
      q := "";
      selected := None;
      rows := [];
      loading := false;
      err := None;
      menuOpen := false;
      pinned := saved;
    }

    /** The answer to the `reports.json` request replaces the list. */
    method ReportsLoaded(res: Fetch<ReportsDocument>)
      modifies this
      ensures reports == LoadedReports(res)
      ensures q == old(q) && selected == old(selected) && rows == old(rows) && loading == old(loading)
      ensures err == old(err) && menuOpen == old(menuOpen) && pinned == old(pinned)
    {
      reports := LoadedReports(res);
    }

    method SetQuery(text: string)
      modifies this
      ensures q == text
      ensures reports == old(reports) && selected == old(selected) && rows == old(rows) && loading == old(loading)
      ensures err == old(err) && menuOpen == old(menuOpen) && pinned == old(pinned)
    {
      q := text;
    }

    /** Opening a report from the list or from a pinned card: its data is requested. */
    method Select(r: Report)
      modifies this
      ensures selected == Some(r) && loading && err == None
      ensures reports == old(reports) && q == old(q) && rows == old(rows)
      ensures menuOpen == old(menuOpen) && pinned == old(pinned)
    {
      selected := Some(r);
      loading := true;
      err := None;
    }

    /** The "Reports" button: no selection, and with it no rows. */
    method Deselect()
      modifies this
      ensures selected == None && rows == []
      ensures reports == old(reports) && q == old(q) && loading == old(loading) && err == old(err)
      ensures menuOpen == old(menuOpen) && pinned == old(pinned)
    {
      selected := None;
      rows := [];
    }

    /** The answer to the data request: rows replace the old ones, an error
        keeps them and records its message; either way loading ends. */
    method RowsLoaded(res: Fetch<DataReply>)
      modifies this
      ensures RowsOutcome(res).Loaded? ==> rows == RowsOutcome(res).value && err == old(err)
      ensures RowsOutcome(res).Failed? ==> rows == old(rows) && err == Some(RowsOutcome(res).message)
      ensures !loading
      ensures reports == old(reports) && q == old(q) && selected == old(selected)
      ensures menuOpen == old(menuOpen) && pinned == old(pinned)
    {
      match RowsOutcome(res) {
        case Loaded(data) => rows := data;
        case Failed(message) => err := Some(message);
      }
      loading := false;
    }

    method ToggleMenu()
      modifies this
      ensures menuOpen == !old(menuOpen)
      ensures reports == old(reports) && q == old(q) && selected == old(selected) && rows == old(rows)
      ensures loading == old(loading) && err == old(err) && pinned == old(pinned)
    {
      menuOpen := !menuOpen;
    }

    /** A checkbox of the Quick Pin menu. */
    method TogglePin(key: string)
      modifies this
      ensures pinned == Toggle(old(pinned), key)
      ensures reports == old(reports) && q == old(q) && selected == old(selected) && rows == old(rows)
      ensures loading == old(loading) && err == old(err) && menuOpen == old(menuOpen)
    {
      pinned := Toggle(pinned, key);
    }

    /** "Clear All Pins": no pins, and the menu closes. */
    method ClearPins()
      modifies this
      ensures pinned == [] && !menuOpen
      ensures reports == old(reports) && q == old(q) && selected == old(selected) && rows == old(rows)
      ensures loading == old(loading) && err == old(err)
    {
      pinned := [];
      menuOpen := false;
    }

    /** `filteredReports`, the list the page shows: every report for a blank
        term, else each report whose lower-cased label contains the term, as
        often as it occurs and in list order. Each page states this for its
        own entry type; the filter itself is `Search.ByText`. */
    function ShownReports(): (r: seq<Report>)
      reads this
      ensures Term(q) == [] ==> r == reports
      ensures forall x :: multiset(r)[x] ==
                if Term(q) == [] || Contains(ToLower(x.caption), Term(q)) then multiset(reports)[x] else 0
      ensures Subsequence(r, reports)
    {
      ByText(reports, CaptionOf, q)
    }

    /** The pinned cards, shown while no report is open. */
    function Cards(): (cs: seq<Report>)
      reads this
      ensures selected.Some? ==> cs == []
      ensures selected.None? ==> cs == PinnedCards(pinned, reports)
      ensures forall c :: c in cs ==> c in reports && c.key in pinned
    {
      PinnedCardsAreReports(pinned, reports);
      if selected.Some? then [] else PinnedCards(pinned, reports)
    }
  }
}
