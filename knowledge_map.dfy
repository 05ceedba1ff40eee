/** The registry the chat assistant consults: the eleven datasets a user can
    open (each with its fixture path, description and key fields) and the three
    restricted sources (catalog, APIs, reports) that are only described.

    `DatasetKey` is the closed union `keyof typeof KnowledgeMap.accessible`:
    one constructor per key, named as the key, and `KeyName` gives its text. */
module KnowledgeMap {
  import opened Text

  datatype DatasetKey =
    | Active_Directory_Computers
    | Active_Directory_Groups
    | Bloomberg_User_ReportTable
    | Computer_Hardware
    | Finance_Budget
    | HR_Devices
    | HR_Employees
    | IT_Software
    | OCC_Unified_Patching_Report
    | RightFax_Users
    | User_Entitlements

  datatype DatasetInfo = DatasetInfo(path: string, description: string, keyFields: seq<string>, insights: seq<string>)

  /** The key as text. */
  function KeyName(k: DatasetKey): string
  {
    match k
    case Active_Directory_Computers => "Active_Directory_Computers"
    case Active_Directory_Groups => "Active_Directory_Groups"
    case Bloomberg_User_ReportTable => "Bloomberg_User_ReportTable"
    case Computer_Hardware => "Computer_Hardware"
    case Finance_Budget => "Finance_Budget"
    case HR_Devices => "HR_Devices"
    case HR_Employees => "HR_Employees"
    case IT_Software => "IT_Software"
    case OCC_Unified_Patching_Report => "OCC_Unified_Patching_Report"
    case RightFax_Users => "RightFax_Users"
    case User_Entitlements => "User_Entitlements"
  }

  /** Different keys have different names, so the text identifies the key. */
  lemma KeyNameInjective(k: DatasetKey, j: DatasetKey)
    requires KeyName(k) == KeyName(j)
    ensures k == j
  {
    assert |KeyName(k)| == |KeyName(j)|;
    assert KeyName(k)[0] == KeyName(j)[0];
    if KeyName(k)[0] == 'A' {
      assert KeyName(k)[17] == KeyName(j)[17];
    } else if KeyName(k)[0] == 'H' {
      assert KeyName(k)[3] == KeyName(j)[3];
    }
  }

  /** Where a key stands in `KnowledgeMap.accessible`. */
  function Position(k: DatasetKey): (i: nat)
    ensures i < 11
  {
    match k
    case Active_Directory_Computers => 0
    case Active_Directory_Groups => 1
    case Bloomberg_User_ReportTable => 2
    case Computer_Hardware => 3
    case Finance_Budget => 4
    case HR_Devices => 5
    case HR_Employees => 6
    case IT_Software => 7
    case OCC_Unified_Patching_Report => 8
    case RightFax_Users => 9
    case User_Entitlements => 10
  }

  /** The key at a position: the inverse of `Position`. */
  function KeyAt(i: nat): (k: DatasetKey)
    requires i < 11
    ensures Position(k) == i
  {
    if i == 0 then Active_Directory_Computers
    else if i == 1 then Active_Directory_Groups
    else if i == 2 then Bloomberg_User_ReportTable
    else if i == 3 then Computer_Hardware
    else if i == 4 then Finance_Budget
    else if i == 5 then HR_Devices
    else if i == 6 then HR_Employees
    else if i == 7 then IT_Software
    else if i == 8 then OCC_Unified_Patching_Report
    else if i == 9 then RightFax_Users
    else User_Entitlements
  }

  lemma KeyAtPosition(k: DatasetKey)
    ensures KeyAt(Position(k)) == k
  {
  }

  /** `Object.keys(KnowledgeMap.accessible)`: the keys in declaration order. */
  function Accessible(): seq<DatasetKey>
  {
    seq(11, i requires 0 <= i < 11 => KeyAt(i))
  }

  /** The registry has eleven entries, each key at its own position, so none twice. */
  lemma AccessibleInOrder()
    ensures |Accessible()| == 11 && NoDup(Accessible())
    ensures forall i :: 0 <= i < 11 ==> Position(Accessible()[i]) == i
  {
  }

  /** Every key is listed. */
  lemma AllKeysAccessible()
    ensures forall k: DatasetKey :: k in Accessible()
  {
    forall k: DatasetKey ensures k in Accessible() {
      KeyAtPosition(k);
      assert Accessible()[Position(k)] == k;
    }
  }

  /** The fixture a dataset is loaded from. */
  function DataPath(k: DatasetKey): string
  {
    "/mock/data/" + KeyName(k) + ".json"
  }

  /** The descriptions, one constant each. */
  const DescActiveDirectoryComputers: string :=
    "Inventory of computers and servers managed in Active Directory, including OS type and status."
  const DescActiveDirectoryGroups: string :=
    "Contains all Active Directory groups, including category, scope, and organizational unit."
  const DescBloombergUserReportTable: string :=
    "List of Bloomberg users, regions, and active status indicators."
  const DescComputerHardware: string :=
    "Hardware asset inventory including manufacturer, processor, and memory capacity."
  const DescFinanceBudget: string :=
    "Department-level financial budgets and spending data for internal tracking."
  const DescHRDevices: string :=
    "Device assignment list for employees across departments and office locations."
  const DescHREmployees: string :=
    "Human Resources dataset listing employees, job titles, and unique identifiers."
  const DescITSoftware: string :=
    "IT software inventory by department and license count."
  const DescOCCUnifiedPatchingReport: string :=
    "Patch management and compliance dataset tracking software updates across devices."
  const DescRightFaxUsers: string :=
    "Fax and document service user list by department and status."
  const DescUserEntitlements: string :=
    "Comprehensive user entitlement dataset tracking cloud access, WAVE status, and adoption metrics."

  /** What `KnowledgeMap.accessible[k].description` says. */
  function Description(k: DatasetKey): string
  {
    match k
    case Active_Directory_Computers => DescActiveDirectoryComputers
    case Active_Directory_Groups => DescActiveDirectoryGroups
    case Bloomberg_User_ReportTable => DescBloombergUserReportTable
    case Computer_Hardware => DescComputerHardware
    case Finance_Budget => DescFinanceBudget
    case HR_Devices => DescHRDevices
    case HR_Employees => DescHREmployees
    case IT_Software => DescITSoftware
    case OCC_Unified_Patching_Report => DescOCCUnifiedPatchingReport
    case RightFax_Users => DescRightFaxUsers
    case User_Entitlements => DescUserEntitlements
  }

  /** `KnowledgeMap.accessible[k].keyFields`. */
  function KeyFields(k: DatasetKey): seq<string>
  {
    match k
    case Active_Directory_Computers => ["Computer_Name", "Operating_System", "Last_Logon_Date", "Enabled"]
    case Active_Directory_Groups => ["group_name", "group_category", "group_scope", "organizational_unit"]
    case Bloomberg_User_ReportTable => ["Name", "Region", "Active"]
    case Computer_Hardware => ["Hostname", "Device_Manufacturer", "Processor", "Memory_GB"]
    case Finance_Budget => ["department", "budget", "spent"]
    case HR_Devices => ["name", "department", "device", "location"]
    case HR_Employees => ["EmpId", "FirstName", "LastName", "Title"]
    case IT_Software => ["department", "software", "licenses"]
    case OCC_Unified_Patching_Report => ["Core_Business_Line", "Patch_Name", "Rating", "Operating_System"]
    case RightFax_Users => ["Login", "Dept", "Enabled"]
    case User_Entitlements =>
      ["Employee_ID", "AD_status", "OneDrive_Status", "Exchange_Online_Status", "Teams_Enabled", "Modern_Score"]
  }

  /** The insights, one list each. */
  const InsActiveDirectoryComputers: seq<string> :=
    ["Identify inactive or disabled computers.",
     "Summarize operating system distribution across the network.",
     "Track password set and logon activity dates."]
  const InsActiveDirectoryGroups: seq<string> :=
    ["Summarize groups by type (Security vs Distribution).",
     "Track group creation and modification activity.",
     "Identify OU-level group structures."]
  const InsBloombergUserReportTable: seq<string> :=
    ["Count active Bloomberg users by region.",
     "Identify inactive or deactivated Bloomberg users."]
  const InsComputerHardware: seq<string> :=
    ["Summarize hardware distribution by manufacturer.",
     "Identify high-memory devices or outdated hardware."]
  const InsFinanceBudget: seq<string> :=
    ["Compare spending vs. budget allocation per department.",
     "Highlight departments exceeding 80% budget utilization."]
  const InsHRDevices: seq<string> :=
    ["Summarize devices by department or type.",
     "Identify location-based device distributions."]
  const InsHREmployees: seq<string> :=
    ["List employees by title or role.",
     "Track employee count by department when correlated."]
  const InsITSoftware: seq<string> :=
    ["Summarize software usage across departments.",
     "Identify most widely licensed software applications."]
  const InsOCCUnifiedPatchingReport: seq<string> :=
    ["Summarize patches by rating (Critical, Important, etc.).",
     "Identify overdue or unpatched systems."]
  const InsRightFaxUsers: seq<string> :=
    ["Count enabled vs disabled fax users.",
     "Show department-level usage of RightFax services."]
  const InsUserEntitlements: seq<string> :=
    ["Summarize adoption metrics for OneDrive and Teams.",
     "Identify users with restricted or inactive entitlements.",
     "Calculate average Modern Score across the organization."]

  /** `KnowledgeMap.accessible[k].insights`: what the dataset can tell. */
  function Insights(k: DatasetKey): seq<string>
  {
    match k
    case Active_Directory_Computers => InsActiveDirectoryComputers
    case Active_Directory_Groups => InsActiveDirectoryGroups
    case Bloomberg_User_ReportTable => InsBloombergUserReportTable
    case Computer_Hardware => InsComputerHardware
    case Finance_Budget => InsFinanceBudget
    case HR_Devices => InsHRDevices
    case HR_Employees => InsHREmployees
    case IT_Software => InsITSoftware
    case OCC_Unified_Patching_Report => InsOCCUnifiedPatchingReport
    case RightFax_Users => InsRightFaxUsers
    case User_Entitlements => InsUserEntitlements
  }

  /** `KnowledgeMap.accessible[k]`. Every path in the registry is
      `/mock/data/<key>.json`, so it is written through `DataPath`. */
  function Info(k: DatasetKey): DatasetInfo
  {
    DatasetInfo(DataPath(k), Description(k), KeyFields(k), Insights(k))
  }

  /** Every entry lists key fields, none of them twice. */
  lemma KeyFieldsDistinct(k: DatasetKey)
    ensures KeyFields(k) != [] && NoDup(KeyFields(k))
  {
    FieldsApart(KeyFields(k));
  }

  /** Every entry describes its dataset and offers at least two insights. */
  lemma EntryDescribed(k: DatasetKey)
    ensures Description(k) != ""
    ensures |Insights(k)| >= 2
  {
    match k {
      case Active_Directory_Computers =>
      case Active_Directory_Groups =>
      case Bloomberg_User_ReportTable =>
      case Computer_Hardware =>
      case Finance_Budget =>
      case HR_Devices =>
      case HR_Employees =>
      case IT_Software =>
      case OCC_Unified_Patching_Report =>
      case RightFax_Users =>
      case User_Entitlements =>
    }
  }

  /** Fields that differ in length or in their first letter are distinct. */
  lemma FieldsApart(f: seq<string>)
    requires forall i, j :: 0 <= i < j < |f| ==> |f[i]| != |f[j]| || (f[i] != [] && f[j] != [] && f[i][0] != f[j][0])
    ensures NoDup(f)
  {
  }

  /** Every fixture lies under `/mock/data/` as a `.json` file named after its key. */
  lemma DataPathShape(k: DatasetKey)
    ensures |DataPath(k)| == 11 + |KeyName(k)| + 5
    ensures DataPath(k)[..11] == "/mock/data/"
    ensures DataPath(k)[11..|DataPath(k)| - 5] == KeyName(k)
    ensures DataPath(k)[|DataPath(k)| - 5..] == ".json"
  {
  }

  /** Each dataset has a fixture of its own: equal paths mean equal keys. */
  lemma DataPathInjective(k: DatasetKey, j: DatasetKey)
    requires DataPath(k) == DataPath(j)
    ensures k == j
  {
    DataPathShape(k);
    DataPathShape(j);
    KeyNameInjective(k, j);
  }

  datatype RestrictedKey = Catalog | Apis | Reports

  datatype RestrictedInfo = RestrictedInfo(path: string, description: string)

  /** `KnowledgeMap.restricted[r].path`. */
  function RestrictedPath(r: RestrictedKey): string
  {
    match r
    case Catalog => "/mock/mockDatasets.json"
    case Apis => "/mock/mockApis.json"
    case Reports => "/mock/mockReports.json"
  }

  /** `KnowledgeMap.restricted[r]`: sources described to the user but not opened. */
  function Restricted(r: RestrictedKey): RestrictedInfo
  {
    var description := match r
      case Catalog => "Datasets available in the global catalog for request and access approval."
      case Apis => "API endpoints for Bloomberg, HR, and M365 with available Swagger documentation."
      case Reports => "Mock Power BI and internal reporting data accessible upon approval.";
    RestrictedInfo(RestrictedPath(r), description)
  }

  /** No restricted source shares a fixture with an accessible dataset:
      asking about the catalog never loads a dataset's rows. */
  lemma RestrictedIsNotADataset(r: RestrictedKey, k: DatasetKey)
    ensures Restricted(r).path != DataPath(k)
  {
    assert DataPath(k)[6] == 'd';
    assert RestrictedPath(r)[6] == 'm';
  }
}
