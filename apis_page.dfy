/** The APIs page: a fixed list of eleven API descriptions, a search box over
    their labels, the Quick Pin menu, and the OpenAPI document of the selected
    API, whose title is rewritten to the portal's current name before it is
    shown. */
module ApisPage {
  import opened Common
  import opened Text
  import opened Json
  import opened Search
  import opened QuickPins

  /** An entry of the list; `caption` is the entry's `label`. */
  datatype ApiView = ApiView(key: string, caption: string, url: string)

  // -------------------------------------------------------------- the list

  /** `${mockBase}/openapi-<slug>.json`. */
  function SpecUrl(mockBase: string, slug: string): (url: string)
    ensures StartsWith(url, mockBase + "/openapi-")
    ensures |url| == |mockBase| + 9 + |slug| + 5
    ensures url[|mockBase| + 9..|mockBase| + 9 + |slug|] == slug
    ensures url[|url| - 5..] == ".json"
  {
    var url := mockBase + "/openapi-" + slug + ".json";
    assert url[..|mockBase| + 9] == mockBase + "/openapi-";
    url
  }

  /** The list the page sets once on mount. */
  function ApiViews(mockBase: string): seq<ApiView>
  {
    [ ApiView("Bloomberg", "Bloomberg", SpecUrl(mockBase, "bloomberg")),
      ApiView("HR", "HR", SpecUrl(mockBase, "hr")),
      ApiView("M365", "M365", SpecUrl(mockBase, "m365")),
      ApiView("Rightfax", "Rightfax Users", SpecUrl(mockBase, "rightfax")),
      ApiView("Finance", "Finance Budget", SpecUrl(mockBase, "finance")),
      ApiView("ActiveComputers", "Active Directory Computers", SpecUrl(mockBase, "activecomputers")),
      ApiView("ActiveGroups", "Active Directory Groups", SpecUrl(mockBase, "activegroups")),
      ApiView("Computer", "Computer Hardware", SpecUrl(mockBase, "computer")),
      ApiView("IT", "IT Software", SpecUrl(mockBase, "it")),
      ApiView("OCC", "OCC Unified Patching Report", SpecUrl(mockBase, "occ")),
      ApiView("User", "User Entitlements", SpecUrl(mockBase, "user")) ]
  }

  /** The file names of the eleven descriptions, in list order. */
  const Slugs: seq<string> := ["bloomberg", "hr", "m365", "rightfax", "finance", "activecomputers",
                               "activegroups", "computer", "it", "occ", "user"]

  /** Eleven entries, each describing its API by the file `openapi-<slug>.json`
      under the mock base (whose shape `SpecUrl` states). */
  lemma ApiViewsShape(mockBase: string)
    ensures |ApiViews(mockBase)| == 11
    ensures forall i :: 0 <= i < 11 ==> ApiViews(mockBase)[i].url == SpecUrl(mockBase, Slugs[i])
  {
  }

  /** No two entries share a key, which the pin list relies on. */
  lemma ApiKeysDistinct(mockBase: string)
    ensures forall i, j :: 0 <= i < j < |ApiViews(mockBase)| ==> ApiViews(mockBase)[i].key != ApiViews(mockBase)[j].key
  {
    var vs := ApiViews(mockBase);
    var ks := ["Bloomberg", "HR", "M365", "Rightfax", "Finance", "ActiveComputers",
               "ActiveGroups", "Computer", "IT", "OCC", "User"];
    assert forall i :: 0 <= i < 11 ==> vs[i].key == ks[i];
    assert "ActiveComputers"[6] != "ActiveGroups"[6];
    assert NoDup(ks);
  }

  /** What the list filter reads of a view: its label. */
  function CaptionOf(v: ApiView): string { v.caption }

  // ------------------------------------------------------------- the title

  const OldName: string := "Data Portal API"
  const NewName: string := "Data Edge API"

  /** `String(title).replace(/^Data Portal API/, "Data Edge API")`. */
  function RenameTitle(title: string): string
  {
    if StartsWith(title, OldName) then NewName + title[|OldName|..] else title
  }

  /** A title that starts with the old name has only that prefix replaced;
      any other title is kept; no rewritten title starts with the old name,
      so rewriting twice is rewriting once. */
  lemma RenameTitleSpec(title: string)
    ensures StartsWith(title, OldName) ==>
      StartsWith(RenameTitle(title), NewName) && RenameTitle(title)[|NewName|..] == title[|OldName|..]
    ensures !StartsWith(title, OldName) ==> RenameTitle(title) == title
    ensures !StartsWith(RenameTitle(title), OldName)
    ensures RenameTitle(RenameTitle(title)) == RenameTitle(title)
  {
    var r := RenameTitle(title);
    if StartsWith(title, OldName) {
      assert r[..|NewName|] == NewName;
      assert r[5] == 'E';
    }
  }

  /** The `info` object of an OpenAPI document: its title, when it has one,
      and its other fields. */
  datatype Info = Info(title: Option<string>, others: Row)

  /** The title given to a document without a usable one. */
  function FallbackTitle(caption: string): string
  {
    NewName + " \U{2013} " + caption
  }

  /** The `info` object after the page's rewrite: a non-empty title is renamed;
      otherwise `info` is created when missing and gets the fallback title.
      Every other field of `info` is kept. */
  function Retitled(info: Option<Info>, caption: string): (r: Info)
    ensures info.Some? ==> r.others == info.value.others
    ensures info.None? ==> r.others == []
    ensures r.title.Some?
    ensures info.Some? && info.value.title.Some? && info.value.title.value != [] ==>
              r.title.value == RenameTitle(info.value.title.value)
    ensures !(info.Some? && info.value.title.Some? && info.value.title.value != []) ==>
              r.title.value == FallbackTitle(caption)
  {
    var base := if info.Some? then info.value else Info(None, []);
    if base.title.Some? && base.title.value != [] then base.(title := Some(RenameTitle(base.title.value)))
    else base.(title := Some(FallbackTitle(caption)))
  }

  /** After the rewrite no document is titled with the old name. */
  lemma RetitledNeverOldName(info: Option<Info>, caption: string)
    ensures !StartsWith(Retitled(info, caption).title.value, OldName)
  {
    var r := Retitled(info, caption);
    if info.Some? && info.value.title.Some? && info.value.title.value != [] {
      RenameTitleSpec(info.value.title.value);
    } else {
      assert r.title.value[5] == 'E';
    }
  }

  /** A parsed OpenAPI document, changed in place by the page. */
  class SpecDocument {
    var info: Option<Info>

    constructor(info0: Option<Info>)
      ensures info == info0
    {
      info := info0;
    }

    /** The rewrite of `spec.info.title` for the API labelled `caption`. */
    method Retitle(caption: string)
      modifies this
      ensures info == Some(Retitled(old(info), caption))
    {
      info := Some(Retitled(info, caption));
    }
  }

  // --------------------------------------------------------- the page state

  class ApisPage {
    var views: seq<ApiView>
    var q: string
    var selected: Option<ApiView>
    var menuOpen: bool
    var pinned: seq<string>
    var swaggerSpec: Option<SpecDocument>

    /** The page as first rendered, with the pins saved by an earlier visit. */
    constructor(saved: seq<string>)
      ensures views == [] && q == "" && selected == None && !menuOpen
      ensures pinned == saved && swaggerSpec == None
    {
      views := [];
      q := "";
      selected := None;
      menuOpen := false;
      pinned := saved;
      swaggerSpec := None;
    }

    /** The mount effect fills in the fixed list. */
    method Mount(mockBase: string)
      modifies this
      ensures views == ApiViews(mockBase)
      ensures q == old(q) && selected == old(selected) && menuOpen == old(menuOpen)
      ensures pinned == old(pinned) && swaggerSpec == old(swaggerSpec)
    {
      views := ApiViews(mockBase);
    }

    method SetQuery(text: string)
      modifies this
      ensures q == text
      ensures views == old(views) && selected == old(selected) && menuOpen == old(menuOpen)
      ensures pinned == old(pinned) && swaggerSpec == old(swaggerSpec)
    {
      q := text;
    }

    /** Opening an API from the list or from a pinned card; its document is requested. */
    method Select(v: ApiView)
      modifies this
      ensures selected == Some(v)
      ensures views == old(views) && q == old(q) && menuOpen == old(menuOpen)
      ensures pinned == old(pinned) && swaggerSpec == old(swaggerSpec)
    {
      selected := Some(v);
    }

    /** The "APIs" button: no selection, and with it no document. */
    method Deselect()
      modifies this
      ensures selected == None && swaggerSpec == None
      ensures views == old(views) && q == old(q) && menuOpen == old(menuOpen) && pinned == old(pinned)
    {
      selected := None;
      swaggerSpec := None;
    }

    /** The answer to the document request for the API labelled `caption`:
        a document is retitled in place and shown; a failure shows none. */
    method SpecLoaded(caption: string, res: Fetch<SpecDocument>)
      modifies this
      modifies if res.Loaded? then {res.value} else {}
      ensures res.Failed? ==> swaggerSpec == None
      ensures res.Loaded? ==> swaggerSpec == Some(res.value)
      ensures res.Loaded? ==> res.value.info == Some(Retitled(old(res.value.info), caption))
      ensures views == old(views) && q == old(q) && selected == old(selected)
      ensures menuOpen == old(menuOpen) && pinned == old(pinned)
    {
      match res {
        case Loaded(doc) =>
          doc.Retitle(caption);
          swaggerSpec := Some(doc);
        case Failed(_) =>
          swaggerSpec := None;
      }
    }

    method ToggleMenu()
      modifies this
      ensures menuOpen == !old(menuOpen)
      ensures views == old(views) && q == old(q) && selected == old(selected)
      ensures pinned == old(pinned) && swaggerSpec == old(swaggerSpec)
    {
      menuOpen := !menuOpen;
    }

    /** A checkbox of the Quick Pin menu. */
    method TogglePin(key: string)
      modifies this
      ensures pinned == Toggle(old(pinned), key)
      ensures views == old(views) && q == old(q) && selected == old(selected)
      ensures menuOpen == old(menuOpen) && swaggerSpec == old(swaggerSpec)
    {
      pinned := Toggle(pinned, key);
    }

    /** "Clear All Pins": no pins, and the menu closes. */
    method ClearPins()
      modifies this
      ensures pinned == [] && !menuOpen
      ensures views == old(views) && q == old(q) && selected == old(selected)
      ensures swaggerSpec == old(swaggerSpec)
    {
      pinned := [];
      menuOpen := false;
    }

    /** `filteredViews`, the list the page shows: every view for a blank
        term, else each view whose lower-cased label contains the term, as
        often as it occurs and in list order. Each page states this for its
        own entry type; the filter itself is `Search.ByText`. */
    function ShownViews(): (r: seq<ApiView>)
      reads this
      ensures Term(q) == [] ==> r == views
      ensures forall v :: multiset(r)[v] ==
                if Term(q) == [] || Contains(ToLower(v.caption), Term(q)) then multiset(views)[v] else 0
      ensures Subsequence(r, views)
    {
      ByText(views, CaptionOf, q)
    }
  }
}
