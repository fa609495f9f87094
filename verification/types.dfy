/** The shared vocabulary of client and server: the Role, Category and Status
    enumerations with their wire names, the label and colour lookup records,
    the entity records and the request shapes. */
module Types {
  import opened Common

  /** Row identifiers. The store generates them; here they are natural numbers. */
  type Id = nat

  datatype Role = Citizen | Admin
  datatype Category = Roads | Waste | Safety | Lighting | Other
  datatype Status = New | InProgress | Resolved

  /** The `action` of a bulk report request. */
  datatype BulkAction = Delete | Archive | Unarchive

  /** The `sortBy` of a report query. */
  datatype SortBy = Newest | Upvotes | Nearest

  const AllRoles: seq<Role> := [Citizen, Admin]
  const AllCategories: seq<Category> := [Roads, Waste, Safety, Lighting, Other]
  const AllStatuses: seq<Status> := [New, InProgress, Resolved]

  /** The string value of each enumeration member, as it travels in JSON. */
  function RoleName(r: Role): string {
    match r
    case Citizen => "CITIZEN"
    case Admin => "ADMIN"
  }

  function CategoryName(c: Category): string {
    match c
    case Roads => "ROADS"
    case Waste => "WASTE"
    case Safety => "SAFETY"
    case Lighting => "LIGHTING"
    case Other => "OTHER"
  }

  function StatusName(s: Status): string {
    match s
    case New => "NEW"
    case InProgress => "IN_PROGRESS"
    case Resolved => "RESOLVED"
  }

  function BulkActionName(a: BulkAction): string {
    match a
    case Delete => "delete"
    case Archive => "archive"
    case Unarchive => "unarchive"
  }

  function SortByName(s: SortBy): string {
    match s
    case Newest => "newest"
    case Upvotes => "upvotes"
    case Nearest => "nearest"
  }

  /** `Object.values(Role).includes(s)`, returning the member it names. */
  function ParseRole(s: string): (r: Option<Role>)
    ensures forall x: Role :: r == Some(x) <==> s == RoleName(x)
  {
    if s == "CITIZEN" then Some(Citizen)
    else if s == "ADMIN" then Some(Admin)
    else None
  }

  /** The category a wire value names, if it names one. */
  function ParseCategory(s: string): (r: Option<Category>)
    ensures forall x: Category :: r == Some(x) <==> s == CategoryName(x)
  {
    if s == "ROADS" then Some(Roads)
    else if s == "WASTE" then Some(Waste)
    else if s == "SAFETY" then Some(Safety)
    else if s == "LIGHTING" then Some(Lighting)
    else if s == "OTHER" then Some(Other)
    else None
  }

  /** `Object.values(Status).includes(s)`, returning the member it names. */
  function ParseStatus(s: string): (r: Option<Status>)
    ensures forall x: Status :: r == Some(x) <==> s == StatusName(x)
  {
    if s == "NEW" then Some(New)
    else if s == "IN_PROGRESS" then Some(InProgress)
    else if s == "RESOLVED" then Some(Resolved)
    else None
  }

  /** Each enumeration lists every member exactly once. */
  lemma EnumerationsAreComplete()
    ensures |AllRoles| == 2 && Distinct(AllRoles) && forall r: Role :: r in AllRoles
    ensures |AllCategories| == 5 && Distinct(AllCategories) && forall c: Category :: c in AllCategories
    ensures |AllStatuses| == 3 && Distinct(AllStatuses) && forall s: Status :: s in AllStatuses
  {
    forall r: Role ensures r in AllRoles {
      match r
      case Citizen => assert AllRoles[0] == r;
      case Admin => assert AllRoles[1] == r;
    }
    forall c: Category ensures c in AllCategories {
      match c
      case Roads => assert AllCategories[0] == c;
      case Waste => assert AllCategories[1] == c;
      case Safety => assert AllCategories[2] == c;
      case Lighting => assert AllCategories[3] == c;
      case Other => assert AllCategories[4] == c;
    }
    forall s: Status ensures s in AllStatuses {
      match s
      case New => assert AllStatuses[0] == s;
      case InProgress => assert AllStatuses[1] == s;
      case Resolved => assert AllStatuses[2] == s;
    }
  }

  /** No wire name is empty, so a present enumeration value is never falsy. */
  lemma WireNamesAreNonEmpty(r: Role, c: Category, s: Status)
    ensures RoleName(r) != "" && CategoryName(c) != "" && StatusName(s) != ""
  {
  }

  const CategoryLabels: map<Category, string> := map[
    Roads := "Roads",
    Waste := "Waste Management",
    Safety := "Public Safety",
    Lighting := "Street Lighting",
    Other := "Other"
  ]

  const CategoryColors: map<Category, string> := map[
    Roads := "#EF4444",
    Waste := "#10B981",
    Safety := "#F59E0B",
    Lighting := "#3B82F6",
    Other := "#8B5CF6"
  ]

  const StatusLabels: map<Status, string> := map[
    New := "New",
    InProgress := "In Progress",
    Resolved := "Resolved"
  ]

  const StatusColors: map<Status, string> := map[
    New := "#EF4444",
    InProgress := "#F59E0B",
    Resolved := "#10B981"
  ]

  /** The lookup records are total, and no two categories share a label. */
  lemma LookupRecordsAreTotal()
    ensures forall c: Category :: c in CategoryLabels && c in CategoryColors
    ensures forall s: Status :: s in StatusLabels && s in StatusColors
    ensures forall a, b | a in CategoryLabels && b in CategoryLabels && a != b :: CategoryLabels[a] != CategoryLabels[b]
  {
    forall c: Category ensures c in CategoryLabels && c in CategoryColors {
      match c
      case Roads =>
      case Waste =>
      case Safety =>
      case Lighting =>
      case Other =>
    }
    forall s: Status ensures s in StatusLabels && s in StatusColors {
      match s
      case New =>
      case InProgress =>
      case Resolved =>
    }
  }

  /** A user as the API shows it: never with the password. `isBanned` is sent
      only by the user listing. */
  datatype User = User(id: Id, email: string, role: Role, isBanned: Option<bool>, createdAt: int)

  /** A report row. `userId` is the owner; anonymous reports have none. */
  datatype Report = Report(
    id: Id,
    title: string,
    description: string,
    category: Category,
    status: Status,
    lat: real,
    lng: real,
    address: string,
    imageData: Option<string>,
    audioData: Option<string>,
    upvotes: int,
    anonymous: bool,
    isArchived: bool,
    createdAt: int,
    updatedAt: int,
    userId: Option<Id>)

  datatype Comment = Comment(id: Id, text: string, createdAt: int, reportId: Id, userId: Id)

  /** The body of a create-report request. `category` is the wire string, which the
      server has to check; an absent string field is the empty string and an absent
      number is 0, both falsy as the absent value is. */
  datatype CreateReportRequest = CreateReportRequest(
    title: string,
    description: string,
    category: string,
    lat: real,
    lng: real,
    address: string,
    imageData: Option<string>,
    audioData: Option<string>,
    anonymous: Option<bool>)

  datatype BulkReportActionRequest = BulkReportActionRequest(reportIds: seq<Id>, action: BulkAction)

  /** The query of a report listing, as the client builds it. */
  datatype ReportFilters = ReportFilters(
    category: Option<Category>,
    status: Option<Status>,
    search: Option<string>,
    sortBy: Option<SortBy>)

  /** What the client keeps after a login or registration. */
  datatype AuthResponse = AuthResponse(token: string, user: User)
}
