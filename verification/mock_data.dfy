/** The fixtures of `mockData.js`: the initial user table, catalogue and
    request store, the hard-coded statistics and the category list, with
    the facts that hold of them. ISO dates are written as epoch
    milliseconds (2024-01-01T00:00:00Z is 1704067200000). */
module MockData {
  import opened Results
  import opened Records

  const Jan01: Timestamp := 1704067200000
  const Jan10: Timestamp := 1704844800000
  const Jan15: Timestamp := 1705276800000
  const Jan18: Timestamp := 1705536000000
  const Jan19: Timestamp := 1705622400000
  const Jan20: Timestamp := 1705708800000
  const Jan22: Timestamp := 1705881600000
  const Jan25: Timestamp := 1706140800000
  const Jan26: Timestamp := 1706227200000
  const Jan30: Timestamp := 1706572800000

  /** `Object.values(mockUsers)`, in declaration order. */
  const MockUsers: seq<User> := [
    User(1, "admin", "admin@school.edu", "System Administrator", AdminRole, Jan01),
    User(2, "student", "student@school.edu", "John Student", StudentRole, Jan15),
    User(3, "staff", "staff@school.edu", "Jane Staff", StaffRole, Jan10)
  ]

  const MockEquipment: seq<Equipment> := [
    Equipment(1, "Canon DSLR Camera", "Camera",
      "Professional DSLR camera for photography projects", "excellent", 5, 3, 1, Jan01),
    Equipment(2, "Lab Microscope", "Lab Equipment",
      "High-power microscope for biology experiments", "good", 10, 7, 1, Jan01),
    Equipment(3, "Wireless Microphone", "Audio Equipment",
      "Professional wireless microphone for presentations", "excellent", 3, 2, 1, Jan01),
    Equipment(4, "Graphics Tablet", "Computer Equipment",
      "Digital drawing tablet for design projects", "good", 8, 5, 1, Jan01),
    Equipment(5, "Soccer Ball Set", "Sports Equipment",
      "Professional soccer balls for sports activities", "fair", 20, 15, 1, Jan01)
  ]

  const MockBorrowRequests: seq<BorrowRequest> := [
    BorrowRequest(1, 2, "John Student", StudentRole, 1, "Canon DSLR Camera", "Camera", 1,
      Jan20, Jan25, Jan30, Pending, "Need for photography assignment",
      None, None, None, None, None),
    BorrowRequest(2, 2, "John Student", StudentRole, 4, "Graphics Tablet", "Computer Equipment", 1,
      Jan18, Jan22, Jan26, Approved, "Digital art project",
      Some("Approved for art class"), Some(1), Some(Jan19), None, None)
  ]

  datatype Stats = Stats(
    totalEquipment: int,
    availableEquipment: int,
    totalUsers: int,
    pendingRequests: int,
    activeBorrows: int,
    overdueReturns: int,
    userActiveRequests: int,
    userBorrowedItems: int)

  const MockStats := Stats(5, 32, 25, 3, 8, 1, 1, 2)

  const MockCategories: seq<string> := ["Camera", "Lab Equipment", "Audio Equipment", "Computer Equipment", "Sports Equipment"]

  /** Sum of the available quantities of a catalogue. */
  function AvailableTotal(items: seq<Equipment>): int
    decreases |items|
  {
    if |items| == 0 then 0 else items[0].availableQuantity + AvailableTotal(items[1..])
  }

  /** The category of each item, in catalogue order. */
  function CategoriesOf(items: seq<Equipment>): (r: seq<string>)
    ensures |r| == |items| && forall i :: 0 <= i < |items| ==> r[i] == items[i].category
  {
    seq(|items|, i requires 0 <= i < |items| => items[i].category)
  }

  predicate QuantitiesInBounds(items: seq<Equipment>) {
    forall i :: 0 <= i < |items| ==> 0 <= items[i].availableQuantity <= items[i].totalQuantity
  }

  lemma FixtureQuantitiesInBounds()
    ensures QuantitiesInBounds(MockEquipment)
  {
  }

  lemma FixtureCategoriesMatchCatalogue()
    ensures MockCategories == CategoriesOf(MockEquipment)
  {
  }

  /** The two statistics that can be derived from the fixtures agree with
      them: five items, 32 units available. */
  lemma FixtureStatsDerivable()
    ensures MockStats.totalEquipment == |MockEquipment|
    ensures MockStats.availableEquipment == AvailableTotal(MockEquipment)
  {
    assert AvailableTotal(MockEquipment[4..]) == 15;
    assert AvailableTotal(MockEquipment[3..]) == 20;
    assert AvailableTotal(MockEquipment[2..]) == 22;
    assert AvailableTotal(MockEquipment[1..]) == 29;
  }

  /** The pending-request count is not derived from the fixtures: it says 3
      where the fixture store holds one pending request. */
  lemma FixturePendingStatIsNotDerived()
    ensures |set i | 0 <= i < |MockBorrowRequests| && MockBorrowRequests[i].status == Pending| == 1
    ensures MockStats.pendingRequests != 1
  {
    var pending := set i | 0 <= i < |MockBorrowRequests| && MockBorrowRequests[i].status == Pending;
    assert pending == {0};
  }

  /** `req` names an item of `items` and copies its name and category. */
  predicate SnapshotMatches(items: seq<Equipment>, req: BorrowRequest) {
    exists j :: 0 <= j < |items| && items[j].id == req.equipmentId
      && items[j].name == req.equipmentName && items[j].category == req.equipmentCategory
  }

  /** Each fixture request names an existing item and copies its name and
      category. */
  lemma FixtureSnapshotsConsistent()
    ensures forall i :: 0 <= i < |MockBorrowRequests| ==> SnapshotMatches(MockEquipment, MockBorrowRequests[i])
  {
    assert SnapshotMatches(MockEquipment, MockBorrowRequests[0]) by {
      assert MockEquipment[0].id == 1;
    }
    assert SnapshotMatches(MockEquipment, MockBorrowRequests[1]) by {
      assert MockEquipment[3].id == 4;
    }
  }

  lemma FixtureDatesOrdered()
    ensures forall i :: 0 <= i < |MockBorrowRequests| ==>
      MockBorrowRequests[i].requestDate <= MockBorrowRequests[i].startDate < MockBorrowRequests[i].endDate
  {
  }

  /** The pending fixture carries no stamp; the approved one carries the
      approval stamps and nothing later. */
  lemma FixtureStamps()
    ensures forall i :: 0 <= i < |MockBorrowRequests| && MockBorrowRequests[i].status == Pending ==>
      var r := MockBorrowRequests[i];
      r.adminNotes.None? && r.approvedBy.None? && r.approvedAt.None? && r.borrowedAt.None? && r.returnedAt.None?
    ensures forall i :: 0 <= i < |MockBorrowRequests| && MockBorrowRequests[i].status == Approved ==>
      var r := MockBorrowRequests[i];
      r.approvedBy.Some? && r.approvedAt.Some? && r.borrowedAt.None? && r.returnedAt.None?
  {
  }

  lemma FixtureUsersDistinct()
    ensures forall i, j :: 0 <= i < j < |MockUsers| ==>
      MockUsers[i].id != MockUsers[j].id && MockUsers[i].username != MockUsers[j].username
      && MockUsers[i].email != MockUsers[j].email
  {
  }
}
