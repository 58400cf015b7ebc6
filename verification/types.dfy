/** The record and enumeration types of the request tracker (types.ts). */
module Types {
  import opened Wrappers

  /** The five roles a user can hold. */
  datatype UserRole = RTM | TM | ASSISTANT | FINANCE | ADMIN

  /** The six states of a request. The enumeration is string-valued: each
      member's value is its own name (see StatusValue). */
  datatype RequestStatus = PENDING_TM | APPROVED_TM | PARTIAL_TM | REJECTED | SIGNED | PAID

  const AllRoles: set<UserRole> := {RTM, TM, ASSISTANT, FINANCE, ADMIN}
  const AllStatuses: set<RequestStatus> := {PENDING_TM, APPROVED_TM, PARTIAL_TM, REJECTED, SIGNED, PAID}

  /** One itemised spend line of a request. Amounts are JavaScript numbers;
      no arithmetic is done on them in this core, so an integer stands in. */
  datatype BranchData = BranchData(branchId: string, amount: int, promoTypeId: string, comment: string)

  /** A budget request. Only `approvedAmount` and `tmComment` are optional;
      the other eight properties are always present. */
  datatype MarketingRequest = MarketingRequest(
    id: string,
    createdAt: string,
    rtmId: string,
    rtmName: string,
    regionId: string,
    branches: seq<BranchData>,
    status: RequestStatus,
    approvedAmount: Option<int>,
    tmComment: Option<string>,
    updatedAt: string)

  /** `regionId?: string | string[]`: a user is tied to one region or to a list of them. */
  datatype RegionRef = OneRegion(regionId: string) | ManyRegions(regionIds: seq<string>)

  datatype User = User(id: string, name: string, role: UserRole, regionId: Option<RegionRef>, password: Option<string>)

  /** The string value of a status member, which is what is persisted. */
  function StatusValue(s: RequestStatus): (name: string)
    ensures ParseStatus(name) == Some(s)
  {
    match s
    case PENDING_TM => "PENDING_TM"
    case APPROVED_TM => "APPROVED_TM"
    case PARTIAL_TM => "PARTIAL_TM"
    case REJECTED => "REJECTED"
    case SIGNED => "SIGNED"
    case PAID => "PAID"
  }

  /** The status member whose value is `name`, if there is one. */
  function ParseStatus(name: string): (r: Option<RequestStatus>)
    ensures r.Some? <==> name in {"PENDING_TM", "APPROVED_TM", "PARTIAL_TM", "REJECTED", "SIGNED", "PAID"}
  {
    if name == "PENDING_TM" then Some(PENDING_TM)
    else if name == "APPROVED_TM" then Some(APPROVED_TM)
    else if name == "PARTIAL_TM" then Some(PARTIAL_TM)
    else if name == "REJECTED" then Some(REJECTED)
    else if name == "SIGNED" then Some(SIGNED)
    else if name == "PAID" then Some(PAID)
    else None
  }

  /** The status encoding is a bijection between the six members and their
      six names: parsing inverts it in both directions. */
  lemma StatusEncodingBijective(name: string, s: RequestStatus)
    ensures ParseStatus(name) == Some(s) <==> StatusValue(s) == name
  {
    if ParseStatus(name) == Some(s) {
      match s
      case PENDING_TM =>
      case APPROVED_TM =>
      case PARTIAL_TM =>
      case REJECTED =>
      case SIGNED =>
      case PAID =>
    }
  }

  /** The status enumeration has exactly six members, with six distinct values. */
  lemma StatusEnumerationComplete(s: RequestStatus, t: RequestStatus)
    ensures s in AllStatuses && |AllStatuses| == 6
    ensures StatusValue(s) == StatusValue(t) ==> s == t
  {
    assert ParseStatus(StatusValue(s)) == Some(s);
  }

  /** The string value of a role member. */
  function RoleValue(r: UserRole): (name: string)
    ensures ParseRole(name) == Some(r)
  {
    match r
    case RTM => "RTM"
    case TM => "TM"
    case ASSISTANT => "ASSISTANT"
    case FINANCE => "FINANCE"
    case ADMIN => "ADMIN"
  }

  /** The role member whose value is `name`, if there is one. */
  function ParseRole(name: string): (r: Option<UserRole>)
    ensures r.Some? <==> name in {"RTM", "TM", "ASSISTANT", "FINANCE", "ADMIN"}
  {
    if name == "RTM" then Some(RTM)
    else if name == "TM" then Some(TM)
    else if name == "ASSISTANT" then Some(ASSISTANT)
    else if name == "FINANCE" then Some(FINANCE)
    else if name == "ADMIN" then Some(ADMIN)
    else None
  }

  /** The role encoding is a bijection between the five members and their
      five names: parsing inverts it in both directions. */
  lemma RoleEncodingBijective(name: string, r: UserRole)
    ensures ParseRole(name) == Some(r) <==> RoleValue(r) == name
  {
    if ParseRole(name) == Some(r) {
      match r
      case RTM =>
      case TM =>
      case ASSISTANT =>
      case FINANCE =>
      case ADMIN =>
    }
  }

  /** The role enumeration has exactly five members, with five distinct values. */
  lemma RoleEnumerationComplete(r: UserRole, q: UserRole)
    ensures r in AllRoles && |AllRoles| == 5
    ensures RoleValue(r) == RoleValue(q) ==> r == q
  {
    assert ParseRole(RoleValue(r)) == Some(r);
  }
}
