/** The chat assistant's reasoning layer: it normalises a message, decides
    which of nine intents it expresses (first match in a fixed order), finds
    the dataset it names (by label, then by alias) or falls back to the dataset
    of the previous turn, and answers with a response text and, when data is
    needed, the fixture to load.

    The trigger patterns are regular expressions applied to NORMALISED text, in
    which every whitespace run is one ' ' and no line terminator is left. There
    `\s+` can only match " ", `\s*` only "" or " ", and `.*` any stretch of text,
    so each pattern is written as the substrings it can match there. */
module IntentEngine {
  import opened Common
  import opened Text
  import opened KnowledgeMap

  // ------------------------------------------------------------ normalisation

  predicate IsDash(c: char) { c == '_' || c == '-' }

  /** Every character is lower-case, not a dash, and whitespace only as ' '. */
  predicate NormalChars(t: string)
  {
    forall i :: 0 <= i < |t| ==> !IsUpper(t[i]) && !IsDash(t[i]) && (IsSpace(t[i]) ==> t[i] == ' ')
  }

  /** What `normalize` produces: normal characters, never two whitespace
      characters in a row, none at either end. */
  predicate IsNormal(t: string)
  {
    && NormalChars(t)
    && NoAdjacent(IsSpace, t)
    && (t == [] || (!IsSpace(t[0]) && !IsSpace(t[|t| - 1])))
  }

  /** The two run replacements leave only normal characters. */
  lemma CollapsedChars(lower: string)
    requires forall i :: 0 <= i < |lower| ==> !IsUpper(lower[i])
    ensures NormalChars(Collapse(IsSpace, ' ', Collapse(IsDash, ' ', lower)))
  {
    var undashed := Collapse(IsDash, ' ', lower);
    var spaced := Collapse(IsSpace, ' ', undashed);
    CollapseChars(IsDash, ' ', lower);
    CollapseChars(IsSpace, ' ', undashed);
    forall c | c in undashed
      ensures !IsUpper(c) && (IsSpace(c) || !IsDash(c))
    {
      if c != ' ' {
        var j :| 0 <= j < |lower| && lower[j] == c;
      }
    }
    forall i | 0 <= i < |spaced|
      ensures !IsUpper(spaced[i]) && !IsDash(spaced[i]) && (IsSpace(spaced[i]) ==> spaced[i] == ' ')
    {
      assert spaced[i] in spaced;
    }
  }

  /** A slice of text keeps its characters' properties and their neighbourhoods. */
  lemma SliceNormal(s: string, a: nat, t: string)
    requires a + |t| <= |s| && t == s[a..a + |t|]
    requires NormalChars(s) && NoAdjacent(IsSpace, s)
    ensures NormalChars(t) && NoAdjacent(IsSpace, t)
  {
    forall i | 0 <= i < |t| - 1 ensures !(IsSpace(t[i]) && IsSpace(t[i + 1])) {
      assert t[i] == s[a + i] && t[i + 1] == s[a + i + 1];
    }
  }

  /** `normalize(s)`: lower-case, every run of `_`/`-` becomes a space, every
      whitespace run becomes one space, then trim. */
  function Normalize(s: string): string
  {
    Trim(Spaced(s))
  }

  /** The text before trimming: lower-cased, both kinds of runs replaced. */
  function Spaced(s: string): (u: string)
    ensures |u| <= |s|
  {
    Collapse(IsSpace, ' ', Collapse(IsDash, ' ', ToLower(s)))
  }

  /** What `normalize` promises: normal text, never longer than its input. */
  lemma NormalizeIsNormal(s: string)
    ensures IsNormal(Normalize(s))
    ensures |Normalize(s)| <= |s|
  {
    NormalizeSteps(s);
  }

  lemma NormalizeSteps(s: string)
    ensures IsNormal(Trim(Spaced(s)))
  {
    var lower := ToLower(s);
    var spaced := Collapse(IsSpace, ' ', Collapse(IsDash, ' ', lower));
    assert spaced == Spaced(s);
    CollapsedChars(lower);
    assert NoAdjacent(IsSpace, spaced);
    var t := Trim(spaced);
    TrimSpec(spaced);
    SliceNormal(spaced, Lead(spaced), t);
    assert NormalChars(t) && NoAdjacent(IsSpace, t);
    assert t == [] || (!IsSpace(t[0]) && !IsSpace(t[|t| - 1]));
  }

  /** Normalised text is left as it is. */
  lemma NormalizeFixed(t: string)
    requires IsNormal(t)
    ensures Normalize(t) == t
  {
    assert ToLower(t) == t;
    CollapseIdentity(IsDash, ' ', t);
    CollapseIdentity(IsSpace, ' ', t);
    TrimIdentity(t);
  }

  /** Normalising twice is normalising once. */
  lemma NormalizeIdempotent(s: string)
    ensures Normalize(Normalize(s)) == Normalize(s)
  {
    NormalizeIsNormal(s);
    NormalizeFixed(Normalize(s));
  }

  // ------------------------------------------------------- naming a dataset

  /** `key.replace(/_/g, " ")`: how a key is shown to the user. */
  function KeyLabel(k: DatasetKey): string
  {
    ReplaceChar(KeyName(k), '_', ' ')
  }

  /** The label `findDatasetKey` looks for, `normalize(key.replace(/_/g, " "))`,
      written out: the key lower-cased with its underscores as spaces. */
  function Label(k: DatasetKey): string
  {
    match k
    case Active_Directory_Computers => "active directory computers"
    case Active_Directory_Groups => "active directory groups"
    case Bloomberg_User_ReportTable => "bloomberg user reporttable"
    case Computer_Hardware => "computer hardware"
    case Finance_Budget => "finance budget"
    case HR_Devices => "hr devices"
    case HR_Employees => "hr employees"
    case IT_Software => "it software"
    case OCC_Unified_Patching_Report => "occ unified patching report"
    case RightFax_Users => "rightfax users"
    case User_Entitlements => "user entitlements"
  }

  /** `DATASET_ALIASES[k]`. Its keys are the registry's keys in the registry's order. */
  function Aliases(k: DatasetKey): seq<string>
  {
    match k
    case Active_Directory_Computers => ["ad computers", "active directory computers", "computers"]
    case Active_Directory_Groups => ["ad groups", "active directory groups", "groups"]
    case Bloomberg_User_ReportTable => ["bloomberg", "bloomberg users"]
    case Computer_Hardware => ["hardware", "computer hardware", "devices hardware"]
    case Finance_Budget => ["finance budget", "budget", "budgets"]
    case HR_Devices => ["hr devices", "devices", "mobile devices"]
    case HR_Employees => ["hr employees", "employees", "staff"]
    case IT_Software => ["it software", "software", "licenses"]
    case OCC_Unified_Patching_Report => ["patching", "patch report", "occ patching"]
    case RightFax_Users => ["rightfax", "fax users", "rightfax users"]
    case User_Entitlements => ["entitlements", "wave", "onedrive", "exchange", "user entitlements"]
  }

  /** The two passes of `findDatasetKey` as tests on a key: the normalised
      message `n` contains the key's label, or (`aliases.some(...)`) one of its
      normalised aliases. */
  function LabelPass(n: string): DatasetKey -> bool
  {
    k => Contains(n, Label(k))
  }

  function AliasPass(n: string): DatasetKey -> bool
  {
    k => exists i :: 0 <= i < |Aliases(k)| && Contains(n, Normalize(Aliases(k)[i]))
  }

  predicate NamesByLabel(n: string, k: DatasetKey) { LabelPass(n)(k) }

  predicate NamesByAlias(n: string, k: DatasetKey) { AliasPass(n)(k) }

  /** `ks.find(hit)`: the first key of `ks` that passes `hit`. */
  function FirstHit(hit: DatasetKey -> bool, ks: seq<DatasetKey>): Option<DatasetKey>
    decreases |ks|
  {
    if ks == [] then None
    else if hit(ks[0]) then Some(ks[0])
    else FirstHit(hit, ks[1..])
  }

  /** The search fails exactly when no key passes; otherwise it returns a
      passing key that no passing key precedes. */
  lemma {:induction false} FirstHitSpec(hit: DatasetKey -> bool, ks: seq<DatasetKey>)
    ensures FirstHit(hit, ks).None? <==> forall i :: 0 <= i < |ks| ==> !hit(ks[i])
    ensures FirstHit(hit, ks).Some? ==>
              exists i :: 0 <= i < |ks| && ks[i] == FirstHit(hit, ks).value && hit(ks[i])
                       && forall j :: 0 <= j < i ==> !hit(ks[j])
    decreases |ks|
  {
    if ks != [] && !hit(ks[0]) {
      FirstHitSpec(hit, ks[1..]);
      assert forall i :: 1 <= i < |ks| ==> ks[i] == ks[1..][i - 1];
      if FirstHit(hit, ks).Some? {
        var i :| 0 <= i < |ks[1..]| && ks[1..][i] == FirstHit(hit, ks).value && hit(ks[1..][i])
                 && forall j :: 0 <= j < i ==> !hit(ks[1..][j]);
        assert ks[i + 1] == FirstHit(hit, ks).value;
      }
    }
  }

  /** Over a list holding every key, the search fails exactly when no key
      passes, and a key it finds passes. */
  lemma FirstHitCovers(hit: DatasetKey -> bool, ks: seq<DatasetKey>)
    requires forall k: DatasetKey :: k in ks
    ensures FirstHit(hit, ks).None? <==> forall k: DatasetKey :: !hit(k)
    ensures FirstHit(hit, ks).Some? ==> hit(FirstHit(hit, ks).value)
  {
    FirstHitSpec(hit, ks);
    if FirstHit(hit, ks).None? {
      forall k: DatasetKey ensures !hit(k) {
        assert k in ks;
        var i :| 0 <= i < |ks| && ks[i] == k;
      }
    }
  }

  /** What `findDatasetKey(msg)` returns: the first key in registry order
      whose label the normalised message contains, else the first whose aliases
      it contains. */
  function KeyMentioned(msg: string): Option<DatasetKey>
  {
    var n := Normalize(msg);
    var byLabel := FirstHit(LabelPass(n), Accessible());
    if byLabel.Some? then byLabel else FirstHit(AliasPass(n), Accessible())
  }

  /** No key is found exactly when the message names none, by label or by alias. */
  lemma KeyMentionedNone(msg: string)
    ensures KeyMentioned(msg).None? <==> forall k: DatasetKey ::
              !NamesByLabel(Normalize(msg), k) && !NamesByAlias(Normalize(msg), k)
  {
    var n := Normalize(msg);
    AllKeysAccessible();
    FirstHitCovers(LabelPass(n), Accessible());
    FirstHitCovers(AliasPass(n), Accessible());
    if forall k: DatasetKey :: !NamesByLabel(n, k) && !NamesByAlias(n, k) {
      forall k: DatasetKey ensures !LabelPass(n)(k) && !AliasPass(n)(k) {
        assert !NamesByLabel(n, k) && !NamesByAlias(n, k);
      }
    }
  }

  /** A key that is found is named by the message, by its label or by one of its aliases. */
  lemma KeyMentionedNamed(msg: string)
    ensures KeyMentioned(msg).Some? ==>
              NamesByLabel(Normalize(msg), KeyMentioned(msg).value) || NamesByAlias(Normalize(msg), KeyMentioned(msg).value)
  {
    var n := Normalize(msg);
    AllKeysAccessible();
    FirstHitCovers(LabelPass(n), Accessible());
    FirstHitCovers(AliasPass(n), Accessible());
  }

  /** A search over the registry that can succeed does, and finds a passing
      key that stands no later than any other passing key. */
  lemma FirstHitEarliest(hit: DatasetKey -> bool, k: DatasetKey)
    requires hit(k)
    ensures FirstHit(hit, Accessible()).Some?
    ensures hit(FirstHit(hit, Accessible()).value)
    ensures Position(FirstHit(hit, Accessible()).value) <= Position(k)
  {
    var ks := Accessible();
    AccessibleInOrder();
    FirstHitSpec(hit, ks);
    KeyAtPosition(k);
    assert ks[Position(k)] == k;
    var r := FirstHit(hit, ks);
    var i :| 0 <= i < |ks| && ks[i] == r.value && hit(ks[i]) && forall j :: 0 <= j < i ==> !hit(ks[j]);
  }

  /** When the message contains some label, the key found is named by its
      label and is the first such key in registry order, whatever aliases of
      earlier keys the message also contains. */
  lemma KeyMentionedByLabel(msg: string, k: DatasetKey)
    requires NamesByLabel(Normalize(msg), k)
    ensures KeyMentioned(msg).Some?
    ensures NamesByLabel(Normalize(msg), KeyMentioned(msg).value)
    ensures Position(KeyMentioned(msg).value) <= Position(k)
  {
    FirstHitEarliest(LabelPass(Normalize(msg)), k);
  }

  /** With no label in the message, the key found is the first in registry
      order that one of its aliases names. */
  lemma KeyMentionedByAlias(msg: string, k: DatasetKey)
    requires forall j: DatasetKey :: !NamesByLabel(Normalize(msg), j)
    requires NamesByAlias(Normalize(msg), k)
    ensures KeyMentioned(msg).Some?
    ensures NamesByAlias(Normalize(msg), KeyMentioned(msg).value)
    ensures Position(KeyMentioned(msg).value) <= Position(k)
  {
    var n := Normalize(msg);
    AllKeysAccessible();
    FirstHitCovers(LabelPass(n), Accessible());
    forall j: DatasetKey ensures !LabelPass(n)(j) {
      assert !NamesByLabel(n, j);
    }
    FirstHitEarliest(AliasPass(n), k);
  }

  /** `findDatasetKey` normalises its input again; on normalised text that changes nothing. */
  lemma KeyMentionedNormalized(msg: string)
    ensures KeyMentioned(Normalize(msg)) == KeyMentioned(msg)
  {
    NormalizeIdempotent(msg);
  }

  // ------------------------------------------------------------ the triggers

  /** The phrases of the help test; each is its own normal form. */
  const HelpPhrases: seq<string> := ["help", "what can you do", "commands", "abilities"]

  const CatalogPhrases: seq<string> := ["catalog", "request access", "available datasets"]

  /** `/(what|which)\s+(data\s*sets|datasets).*(have|access|available|mine)/`:
      one of these heads, and later one of the tails. */
  const WhichHeads: seq<string> := ["what datasets", "what data sets", "which datasets", "which data sets"]

  const WhichTails: seq<string> := ["have", "access", "available", "mine"]

  /** `/(my|available)\s+datasets?/`. */
  const MinePhrases: seq<string> := ["my dataset", "available dataset"]

  /** `/show\s+(me\s+)?(my\s+)?datasets?/`. */
  const ShowPhrases: seq<string> := ["show dataset", "show me dataset", "show my dataset", "show me my dataset"]

  const FieldsPhrases: seq<string> := ["fields", "columns", "schema", "headers"]

  const CountPhrases: seq<string> := ["how many", "count", "number of", "row count", "record count"]

  const ChartPhrases: seq<string> := ["chart", "graph", "visualize", "plot"]

  const GroupPhrases: seq<string> := ["group", "summarize", "aggregate"]

  /** `a` occurs in `n`, and `b` occurs after it. */
  predicate FollowedBy(n: string, a: string, b: string)
  {
    exists i, j :: 0 <= i <= j <= |n| && OccursAt(n, a, i) && i + |a| <= j && OccursAt(n, b, j)
  }

  predicate AsksWhichDatasets(n: string)
  {
    exists x, y :: 0 <= x < |WhichHeads| && 0 <= y < |WhichTails| && FollowedBy(n, WhichHeads[x], WhichTails[y])
  }

  /** The three list-my-datasets patterns. */
  predicate AsksList(n: string)
  {
    AsksWhichDatasets(n) || ContainsAny(n, MinePhrases) || ContainsAny(n, ShowPhrases)
  }

  // -------------------------------------------------------- the "by" field

  /** The class `[a-zA-Z0-9_ ]`. */
  predicate FieldChar(c: char) { IsWordChar(c) || c == ' ' }

  /** `/by ([a-zA-Z0-9_ ]+)/` can match at `i`: "by " followed by a field character. */
  predicate ByAt(n: string, i: nat)
  {
    OccursAt(n, "by ", i) && i + 3 < |n| && FieldChar(n[i + 3])
  }

  /** The leftmost match position at or after `i`. */
  function FirstByFrom(n: string, i: nat): (r: Option<nat>)
    ensures r.Some? ==> i <= r.value && ByAt(n, r.value) && forall j :: i <= j < r.value ==> !ByAt(n, j)
    ensures r.None? ==> forall j: nat :: i <= j ==> !ByAt(n, j)
    decreases |n| - i
  {
    if i + 3 >= |n| then None
    else if ByAt(n, i) then Some(i)
    else FirstByFrom(n, i + 1)
  }

  /** `msg.match(/by ([a-zA-Z0-9_ ]+)/)?.[1]`: the greedy run of field
      characters after the leftmost match. */
  function ByCapture(n: string): Option<string>
  {
    match FirstByFrom(n, 0)
    case None => None
    case Some(i) => Some(TakeRun(FieldChar, n[i + 3..]))
  }

  /** `groupField`: the capture trimmed, each whitespace run turned into `_`. */
  function GroupField(n: string): Option<string>
  {
    match ByCapture(n)
    case None => None
    case Some(c) => Some(Collapse(IsSpace, '_', Trim(c)))
  }

  /** The capture is a run of field characters that begins right after the
      leftmost "by " that a field character follows. */
  lemma ByCaptureFound(n: string)
    ensures ByCapture(n).None? <==> forall i: nat :: !ByAt(n, i)
    ensures ByCapture(n).Some? ==>
              ByCapture(n).value != [] &&
              (forall c :: c in ByCapture(n).value ==> FieldChar(c)) &&
              exists i: nat :: ByAt(n, i) && Contains(n, "by " + ByCapture(n).value)
  {
    match FirstByFrom(n, 0)
    case None =>
    case Some(i) =>
      var c := TakeRun(FieldChar, n[i + 3..]);
      assert c != [] by {
        assert FieldChar(n[i + 3..][0]);
      }
      assert n[i..i + 3] == "by ";
      assert n[i..i + 3 + |c|] == "by " + c;
      ContainsAt(n, "by " + c, i);
  }

  /** In normalised text the capture starts with a character that is not
      whitespace: "by " ends in a space, and no two spaces are adjacent. */
  lemma CaptureStartsSolid(n: string)
    requires IsNormal(n) && ByCapture(n).Some?
    ensures ByCapture(n).value != [] && !IsSpace(ByCapture(n).value[0])
  {
    var i :| FirstByFrom(n, 0) == Some(i);
    assert n[i + 2] == ' ' by {
      assert n[i..i + 3] == "by ";
    }
    assert !IsSpace(n[i + 3]);
    assert n[i + 3..][0] == n[i + 3];
  }

  /** A capture that does not start with whitespace gives a non-empty field
      without whitespace. */
  lemma FieldOfCapture(c: string)
    requires c != [] && !IsSpace(c[0])
    ensures Collapse(IsSpace, '_', Trim(c)) != []
    ensures forall ch :: ch in Collapse(IsSpace, '_', Trim(c)) ==> !IsSpace(ch)
  {
    BlankIff(c);
    CollapseChars(IsSpace, '_', Trim(c));
  }

  /** In a normalised message a field is named whenever "by " is followed by
      a field character: it is never blank, and holds no whitespace. */
  lemma GroupFieldShape(msg: string)
    requires ByCapture(Normalize(msg)).Some?
    ensures GroupField(Normalize(msg)).Some?
    ensures GroupField(Normalize(msg)).value != []
    ensures forall c :: c in GroupField(Normalize(msg)).value ==> !IsSpace(c)
  {
    var n := Normalize(msg);
    NormalizeIsNormal(msg);
    CaptureStartsSolid(n);
    FieldOfCapture(ByCapture(n).value);
  }

  // ----------------------------------------------------------- the results

  /** `IntentType`, one constructor per string of the union. */
  datatype IntentType =
    | help | catalog | list_datasets | dataset | list_fields | count | chart | group | unknown

  /** What a response says, before it is worded: the fixed texts, the
      clarifying question of an intent, the answer of an intent about a
      dataset (with `groupField`), and the dataset summary. */
  datatype Reply =
    | HelpReply
    | CatalogReply
    | ListReply
    | UnknownReply
    | Clarify(asked: IntentType)
    | About(answered: IntentType, key: DatasetKey, field: Option<string>)
    | Summary(subject: DatasetKey)

  /** The record `interpretIntent` builds, its response not yet worded. */
  datatype Decision = Decision(
    intent: IntentType,
    datasetKey: Option<DatasetKey>,
    reply: Reply,
    fetchPath: Option<string>)

  /** `IntentResult`; the optional fields as `Option`. */
  datatype IntentResult = IntentResult(
    intent: IntentType,
    datasetKey: Option<DatasetKey>,
    response: string,
    fetchPath: Option<string>)

  /** `explicitKey || ctx?.lastDatasetKey`: keys are non-empty strings, so a
      named key always wins. */
  function Resolve(named: Option<DatasetKey>, last: Option<DatasetKey>): Option<DatasetKey>
  {
    if named.Some? then named else last
  }

  /** One of the four intents that work on a dataset: the resolved key, or the
      clarifying question. Only `list_fields` loads nothing; the others load
      `info.path`, which is `DataPath(k)`. */
  function OnDataset(intent: IntentType, key: Option<DatasetKey>, field: Option<string>): Decision
  {
    match key
    case None => Decision(intent, None, Clarify(intent), None)
    case Some(k) =>
      var path := if intent == list_fields then None else Some(DataPath(k));
      Decision(intent, Some(k), About(intent, k, field), path)
  }

  /** The precedence of the tests: help, catalog, list, fields, count, chart, group. */
  const Chain: seq<IntentType> := [help, catalog, list_datasets, list_fields, count, chart, group]

  /** Which tests the normalised message `n` passes, in the order of `Chain`. */
  function Passes(n: string): (p: seq<bool>)
    ensures |p| == |Chain|
  {
    [ ContainsAny(n, HelpPhrases), ContainsAny(n, CatalogPhrases), AsksList(n),
      ContainsAny(n, FieldsPhrases), ContainsAny(n, CountPhrases),
      ContainsAny(n, ChartPhrases), ContainsAny(n, GroupPhrases) ]
  }

  /** The if-chain of `interpretIntent`, given the outcome `p` of its tests in
      the order of `Chain`, the key `findDatasetKey` finds, the context's key
      and `groupField`. */
  function Choose(p: seq<bool>, named: Option<DatasetKey>, last: Option<DatasetKey>, field: Option<string>): Decision
    requires |p| == |Chain|
  {
    if p[0] then Decision(help, None, HelpReply, None)
    else if p[1] then Decision(catalog, None, CatalogReply, Some(RestrictedPath(RestrictedKey.Catalog)))
    else if p[2] then Decision(list_datasets, None, ListReply, None)
    else if p[3] then OnDataset(list_fields, Resolve(named, last), None)
    else if p[4] then OnDataset(count, Resolve(named, last), None)
    else if p[5] then OnDataset(chart, Resolve(named, last), field)
    else if p[6] then OnDataset(group, Resolve(named, last), field)
    else match named
      case Some(k) => Decision(dataset, Some(k), Summary(k), Some(DataPath(k)))
      case None => Decision(unknown, None, UnknownReply, None)
  }

  /** The decision on the normalised message `n`. */
  function Decide(n: string, last: Option<DatasetKey>): Decision
  {
    Choose(Passes(n), KeyMentioned(n), last, GroupField(n))
  }

  /** `interpretIntent(message, ctx)`: decide on the normalised message, then
      word the response. */
  function Interpret(message: string, last: Option<DatasetKey>): IntentResult
  {
    var d := Decide(Normalize(message), last);
    IntentResult(d.intent, d.datasetKey, Wording(d.reply), d.fetchPath)
  }

  // ------------------------------------------------------------- the wording

  const HelpText: string :=
    "I can help you with:\n" +
    "\U{2022} List your accessible datasets\n" +
    "\U{2022} Summarize or preview data samples\n" +
    "\U{2022} List fields or row counts\n" +
    "\U{2022} Create charts or group data by fields\n" +
    "\U{2022} Access APIs, reports, and catalog items"

  const CatalogText: string :=
    "The Catalog contains datasets, APIs, and reports you can request. I\U{2019}ll only provide metadata for those until access is granted."

  const UnknownText: string :=
    "I didn\U{2019}t quite catch that. Try:\n" +
    "\U{2022} 'What datasets do I have access to?'\n" +
    "\U{2022} 'Show me Finance Budget'\n" +
    "\U{2022} 'List HR Employees fields'\n" +
    "\U{2022} 'Show a chart of Finance Budget by department'"

  /** The registry's keys as the user reads them, in registry order. */
  function DisplayNames(): (names: seq<string>)
    ensures |names| == |Accessible()|
    ensures forall i :: 0 <= i < |names| ==> names[i] == KeyLabel(Accessible()[i])
  {
    seq(|Accessible()|, i requires 0 <= i < |Accessible()| => KeyLabel(Accessible()[i]))
  }

  const Bullet: string := "\n\U{2022} "

  /** The first line of the `list_datasets` answer, for `count` names. */
  function ListHead(count: nat): string
  {
    "You currently have access to " + NatToString(count) + " dataset(s):"
  }

  /** The `list_datasets` answer for `names`: the count, then one bulleted name per line. */
  function ListAnswer(names: seq<string>): string
  {
    ListHead(|names|) + Bullet + Join(names, Bullet)
  }

  /** The `list_datasets` answer: the registry's names, sorted. */
  function ListText(): string
  {
    ListAnswer(Sort(DisplayNames()))
  }

  /** The question asked when neither the message nor the context names a dataset. */
  function ClarifyText(intent: IntentType): string
  {
    match intent
    case list_fields => "Which dataset should I list fields for? (e.g., 'List Finance Budget fields')"
    case count => "Which dataset should I count? (e.g., 'How many records in HR Employees?')"
    case chart => "Which dataset would you like me to chart? (e.g., 'Show a bar chart of Finance Budget')"
    case _ => "Which dataset should I group? (e.g., 'Group HR Employees by title')"
  }

  /** The answer about dataset `k`, for the four intents that need one;
      `field` is `groupField`, used when it is a non-empty string. */
  function AnswerText(intent: IntentType, k: DatasetKey, field: Option<string>): string
  {
    var shown := KeyLabel(k);
    var named := field.Some? && field.value != [];
    match intent
    case list_fields => "Fields in " + shown + ": " + Join(KeyFields(k), ", ")
    case count => "Counting records in " + shown + "\U{2026}"
    case chart =>
      if named then "\U{1F4CA} Sure! I\U{2019}ll generate a chart of " + shown + " grouped by " + field.value + "."
      else "\U{1F4CA} I\U{2019}ll visualize the " + shown + " dataset."
    case _ =>
      if named then "\U{1F4CA} I\U{2019}ll group " + shown + " by " + field.value + "."
      else "\U{1F4CA} I\U{2019}ll summarize " + shown + "."
  }

  /** The `dataset` answer: name, description, key fields and the menu. */
  function SummaryText(k: DatasetKey): string
  {
    "\U{2705} You have access to **" + KeyLabel(k) + "**.\n" +
    "Description: " + Description(k) + "\n\n" +
    "Key fields: " + Join(KeyFields(k), ", ") + "\n\n" +
    "I can help you with:\n" +
    "**1. List fields**\n" +
    "**2. Count rows**\n" +
    "**3. Preview sample data**\n" +
    "**4. Group data**\n" +
    "**5. Visualize with charts**\n" +
    "*(Reply with a number to choose an option)*"
  }

  function Wording(r: Reply): string
  {
    match r
    case HelpReply => HelpText
    case CatalogReply => CatalogText
    case ListReply => ListText()
    case UnknownReply => UnknownText
    case Clarify(intent) => ClarifyText(intent)
    case About(intent, k, field) => AnswerText(intent, k, field)
    case Summary(k) => SummaryText(k)
  }

  // ------------------------------------------------------------- properties

  /** First match: the intent is `Chain[i]` exactly when the `i`-th test is the
      first one that passes. */
  lemma FirstMatch(p: seq<bool>, named: Option<DatasetKey>, last: Option<DatasetKey>, field: Option<string>, i: nat)
    requires |p| == |Chain| && i < |Chain|
    ensures Choose(p, named, last, field).intent == Chain[i] <==> p[i] && forall j :: 0 <= j < i ==> !p[j]
  {
  }

  /** When no test passes the message is about the dataset it names, and is
      not understood when it names none; the context plays no part. */
  lemma FallThrough(p: seq<bool>, named: Option<DatasetKey>, last: Option<DatasetKey>, field: Option<string>)
    requires |p| == |Chain| && forall j :: 0 <= j < |Chain| ==> !p[j]
    ensures Choose(p, named, last, field).intent == (if named.Some? then dataset else unknown)
  {
  }

  /** The context never changes the intent, and changes nothing at all for
      the intents that do not work on a dataset. */
  lemma ContextOnlyFillsIn(p: seq<bool>, named: Option<DatasetKey>, last: Option<DatasetKey>,
                           other: Option<DatasetKey>, field: Option<string>)
    requires |p| == |Chain|
    ensures Choose(p, named, last, field).intent == Choose(p, named, other, field).intent
    ensures Choose(p, named, last, field).intent !in {list_fields, count, chart, group} ==>
              Choose(p, named, last, field) == Choose(p, named, other, field)
  {
  }

  /** For the four intents that work on a dataset, a dataset named in the
      message wins over the context, which is only the fallback; with neither,
      the answer is the intent's clarifying question and loads nothing. */
  lemma NamedDatasetWins(p: seq<bool>, named: Option<DatasetKey>, last: Option<DatasetKey>, field: Option<string>)
    requires |p| == |Chain|
    requires Choose(p, named, last, field).intent in {list_fields, count, chart, group}
    ensures named.Some? ==> Choose(p, named, last, field).datasetKey == named
    ensures named.None? ==> Choose(p, named, last, field).datasetKey == last
    ensures named.None? && last.None? ==>
              Choose(p, named, last, field).fetchPath.None? &&
              Choose(p, named, last, field).reply == Clarify(Choose(p, named, last, field).intent)
  {
  }

  /** The `dataset` intent comes only from a key the message names, never
      from the context, and loads that key's fixture. */
  lemma DatasetFromMessageOnly(p: seq<bool>, named: Option<DatasetKey>, last: Option<DatasetKey>, field: Option<string>)
    requires |p| == |Chain|
    requires Choose(p, named, last, field).intent == dataset
    ensures named.Some?
    ensures Choose(p, named, last, field).datasetKey == named
    ensures Choose(p, named, last, field).fetchPath == Some(DataPath(named.value))
    ensures Choose(p, named, last, field).reply == Summary(named.value)
  {
  }

  /** Paths: a result with both a key and a path loads that key's fixture
      (`Info(k).path` is `DataPath(k)`); the catalog loads the catalog's and
      names no key; help, lists of fields or
      datasets, and unknown messages load nothing. */
  lemma PathsAgree(p: seq<bool>, named: Option<DatasetKey>, last: Option<DatasetKey>, field: Option<string>)
    requires |p| == |Chain|
    ensures var d := Choose(p, named, last, field);
      d.datasetKey.Some? && d.fetchPath.Some? ==> d.fetchPath.value == DataPath(d.datasetKey.value)
    ensures var d := Choose(p, named, last, field);
      d.intent == catalog ==> d.datasetKey.None? && d.fetchPath == Some(RestrictedPath(RestrictedKey.Catalog))
    ensures var d := Choose(p, named, last, field);
      d.intent in {help, list_datasets, list_fields, unknown} ==> d.fetchPath.None?
    ensures var d := Choose(p, named, last, field);
      d.fetchPath.Some? && d.datasetKey.None? ==> d.intent == catalog
  {
  }

  /** Whatever else it says, a message containing "help" asks for help. */
  lemma HelpFirst(n: string, last: Option<DatasetKey>)
    requires Contains(n, "help")
    ensures Decide(n, last).intent == help
  {
    assert HelpPhrases[0] == "help";
    assert Passes(n)[0];
  }

  /** "available datasets" passes the catalog test and the list test. */
  lemma AvailableDatasetsTests(n: string)
    requires Contains(n, "available datasets")
    ensures ContainsAny(n, CatalogPhrases) && AsksList(n)
  {
    assert CatalogPhrases[2] == "available datasets";
    ContainsAnyIff(n, CatalogPhrases);
    assert "available datasets" == "available dataset" + "s";
    ContainsPrefix(n, "available dataset", "s");
    assert MinePhrases[1] == "available dataset";
    ContainsAnyIff(n, MinePhrases);
  }

  /** "available datasets" also passes the list test, but the catalog test
      comes first, whatever dataset, context and field the message has (so
      in particular `Decide(n, last).intent == catalog`). */
  lemma AvailableDatasetsIsCatalog(n: string, named: Option<DatasetKey>, last: Option<DatasetKey>, field: Option<string>)
    requires !ContainsAny(n, HelpPhrases)
    requires Contains(n, "available datasets")
    ensures AsksList(n)
    ensures Choose(Passes(n), named, last, field).intent == catalog
  {
    AvailableDatasetsTests(n);
    var p := Passes(n);
    assert !p[0] && p[1];
    CatalogFirst(p, named, last, field);
  }

  /** With the help test failing and the catalog test passing, the intent is
      the catalog, whatever else passes. */
  lemma CatalogFirst(p: seq<bool>, named: Option<DatasetKey>, last: Option<DatasetKey>, field: Option<string>)
    requires |p| == |Chain| && !p[0] && p[1]
    ensures Choose(p, named, last, field).intent == catalog
  {
    FirstMatch(p, named, last, field, 1);
  }

  /** The label "active directory groups" contains "group". */
  lemma GroupsLabelHasGroup(n: string)
    requires NamesByLabel(n, Active_Directory_Groups)
    ensures ContainsAny(n, GroupPhrases)
  {
    assert Label(Active_Directory_Groups) == "active directory groups";
    ContainsInfix("active directory ", "group", "s");
    assert "active directory " + "group" + "s" == "active directory groups";
    ContainsTrans(n, "active directory groups", "group");
    assert GroupPhrases[0] == "group";
  }

  /** A message that names "active directory groups" contains "group", so
      unless an earlier test passes it is a grouping request: that dataset's
      summary is never reached through its own label. */
  lemma GroupsLabelMeansGroup(n: string, last: Option<DatasetKey>)
    requires forall j :: 0 <= j < |Chain| - 1 ==> !Passes(n)[j]
    requires NamesByLabel(n, Active_Directory_Groups)
    ensures Decide(n, last).intent == group
  {
    GroupsLabelHasGroup(n);
    FirstMatch(Passes(n), KeyMentioned(n), last, GroupField(n), 6);
  }

  /** The key `interpretIntent` works with is the one `findDatasetKey` finds
      in the raw message. */
  lemma DecideUsesMentionedKey(message: string, last: Option<DatasetKey>)
    ensures Decide(Normalize(message), last) ==
              Choose(Passes(Normalize(message)), KeyMentioned(message), last, GroupField(Normalize(message)))
  {
    KeyMentionedNormalized(message);
  }

  /** Interpreting already normalised text gives the same result. */
  lemma NormalizedMessage(message: string, last: Option<DatasetKey>)
    ensures Interpret(Normalize(message), last) == Interpret(message, last)
  {
    NormalizeIdempotent(message);
  }

  /** The sorted list of names holds every dataset's name. */
  lemma ListedNamesComplete(k: DatasetKey)
    ensures |Sort(DisplayNames())| == 11
    ensures KeyLabel(k) in Sort(DisplayNames())
  {
    AccessibleInOrder();
    KeyAtPosition(k);
    assert DisplayNames()[Position(k)] == KeyLabel(k);
    assert KeyLabel(k) in multiset(DisplayNames());
    assert KeyLabel(k) in multiset(Sort(DisplayNames()));
  }

  /** The list answer begins with the number of names it lists. */
  lemma ListAnswerCounts(names: seq<string>)
    ensures StartsWith(ListAnswer(names), ListHead(|names|))
  {
    StartsWithJoined(ListHead(|names|), Bullet + Join(names, Bullet));
  }

  /** The list answer mentions every name it lists. */
  lemma ListAnswerNames(names: seq<string>, x: string)
    requires x in names
    ensures Contains(ListAnswer(names), x)
  {
    var i :| 0 <= i < |names| && names[i] == x;
    JoinContains(names, Bullet, i);
    var head := ListHead(|names|) + Bullet;
    ContainsWithin(head, Join(names, Bullet), "", x);
    assert ListAnswer(names) == head + Join(names, Bullet) + "";
  }

  /** The list answer begins with the count of the eleven datasets. */
  lemma ListTextCounts()
    ensures StartsWith(ListText(), ListHead(11))
  {
    ListedNamesComplete(Finance_Budget);
    ListAnswerCounts(Sort(DisplayNames()));
  }

  /** The head of the list answer for eleven datasets, spelled out. */
  lemma ListHeadEleven()
    ensures ListHead(11) == "You currently have access to 11 dataset(s):"
  {
    assert NatToString(11) == "11";
  }

  /** The list answer names every dataset as it is shown to the user. */
  lemma ListTextNamesAll(k: DatasetKey)
    ensures Contains(ListText(), KeyLabel(k))
  {
    ListedNamesComplete(k);
    ListAnswerNames(Sort(DisplayNames()), KeyLabel(k));
  }

  /** A chart or grouping answer with a non-empty field names the field. */
  lemma AnswerNamesField(intent: IntentType, k: DatasetKey, g: string)
    requires intent in {chart, group} && g != []
    ensures Contains(AnswerText(intent, k, Some(g)), g)
  {
    if intent == chart {
      ContainsInfix("\U{1F4CA} Sure! I\U{2019}ll generate a chart of " + KeyLabel(k) + " grouped by ", g, ".");
    } else {
      ContainsInfix("\U{1F4CA} I\U{2019}ll group " + KeyLabel(k) + " by ", g, ".");
    }
  }
}
