/** The records the lending portal keeps: equipment items, borrow requests
    and users. Field names follow the portal's JSON field names in camel
    case. Dates, which the portal keeps as ISO-8601 strings, are modelled as
    instants in milliseconds since the Unix epoch; `null` stamps are `None`.
    Statuses, conditions and roles stay strings, as in the portal: the
    services never restrict them to a closed set. */
module Records {
  import opened Results

  /** Milliseconds since 1970-01-01T00:00:00Z. */
  type Timestamp = int

  datatype Equipment = Equipment(
    id: int,
    name: string,
    category: string,
    description: string,
    condition: string,
    totalQuantity: int,
    availableQuantity: int,
    createdBy: int,
    createdAt: Timestamp)

  datatype BorrowRequest = BorrowRequest(
    id: int,
    userId: int,
    userName: string,
    userRole: string,
    equipmentId: int,
    equipmentName: string,
    equipmentCategory: string,
    quantityRequested: int,
    requestDate: Timestamp,
    startDate: Timestamp,
    endDate: Timestamp,
    status: string,
    notes: string,
    adminNotes: Option<string>,
    approvedBy: Option<int>,
    approvedAt: Option<Timestamp>,
    borrowedAt: Option<Timestamp>,
    returnedAt: Option<Timestamp>)

  datatype User = User(
    id: int,
    username: string,
    email: string,
    fullName: string,
    role: string,
    createdAt: Timestamp)

  /** The five statuses the portal writes into a request. */
  const Pending := "pending"
  const Approved := "approved"
  const Rejected := "rejected"
  const Borrowed := "borrowed"
  const Returned := "returned"

  /** The roles of the fixture users. */
  const AdminRole := "admin"
  const StaffRole := "staff"
  const StudentRole := "student"
}
