/** The in-memory borrow-request store of `borrowService.js`: listing with a
    status filter and a limit, lookup by id, creation, and the three record
    updates driven by the admin panel. Each operation is one atomic step;
    the simulated network delay is not modelled. None of the updates looks
    at the current status of the record, and none touches equipment. */
module BorrowService {
  import opened Results
  import opened Records
  import opened Seqs

  type Store = seq<BorrowRequest>

  const NotFound := "Request not found"

  /** The filters `getAll` reads. An empty `status` is no status filter and a
      zero `limit` is no limit, as the service skips falsy filters. */
  datatype ListFilters = ListFilters(status: string, limit: int)

  const NoListFilters := ListFilters("", 0)

  /** What `create` receives from the borrow form. */
  datatype BorrowData = BorrowData(
    equipmentId: int,
    quantityRequested: int,
    startDate: Timestamp,
    endDate: Timestamp,
    notes: string)

  /** What `approveReject` receives from the admin panel. */
  datatype Decision = Decision(status: string, notes: string)

  /** The test `findIndex` and `find` apply: the record carries `id`. */
  function IdTest(id: int): BorrowRequest -> bool {
    (req: BorrowRequest) => req.id == id
  }

  predicate HasId(store: Store, id: int) {
    exists i :: 0 <= i < |store| && store[i].id == id
  }

  /** The requests carrying exactly `status`, in store order. */
  function WithStatus(store: Store, status: string): (r: Store)
    ensures IsSubsequence(r, store)
    ensures forall x :: x in r <==> x in store && x.status == status
    ensures forall x :: multiset(r)[x] == if x.status == status then multiset(store)[x] else 0
  {
    var p := (req: BorrowRequest) => req.status == status;
    FilterIsSubsequence(store, p);
    Filter(store, p)
  }

  /** `getAll(filters)`: the status filter, then `slice(0, limit)`. */
  function GetAll(store: Store, filters: ListFilters): (r: Store)
    ensures var matching := if filters.status == "" then store else WithStatus(store, filters.status);
      && r <= matching
      && (filters.limit == 0 ==> r == matching)
      && (filters.limit > 0 ==> |r| == if filters.limit < |matching| then filters.limit else |matching|)
      && (filters.limit < 0 ==> |r| == if |matching| + filters.limit > 0 then |matching| + filters.limit else 0)
    ensures forall x :: x in r ==> x in store && (filters.status != "" ==> x.status == filters.status)
  {
    var matching := if filters.status == "" then store else WithStatus(store, filters.status);
    if filters.limit != 0 then SliceTo(matching, filters.limit) else matching
  }

  /** With no filters `getAll` returns the whole store, in order. */
  lemma GetAllUnfiltered(store: Store)
    ensures GetAll(store, NoListFilters) == store
  {
  }

  /** `getById(id)`: the first record with `id`, or "Request not found". */
  function GetById(store: Store, id: int): (r: Result<BorrowRequest>)
    ensures r.Err? <==> !HasId(store, id)
    ensures r.Err? ==> r.message == NotFound
    ensures forall i :: IsFirst(store, i, IdTest(id)) ==> r == Ok(store[i])
  {
    match FindIndex(store, IdTest(id))
    case None => Err(NotFound)
    case Some(i) => Ok(store[i])
  }

  /** `create(data)`: prepends a fresh pending request. The requester and
      the equipment snapshot are fixed placeholders in the mock; `id` and
      `now` stand for `Date.now()` and the current time. */
  function Create(store: Store, data: BorrowData, id: int, now: Timestamp): (r: Step<Store, BorrowRequest>)
    ensures r.result.Ok?
    ensures |r.state| == |store| + 1 && r.state[1..] == store
    ensures r.state[0] == r.result.value
    ensures var req := r.result.value;
      && req.id == id && req.status == Pending && req.requestDate == now
      && req.equipmentId == data.equipmentId && req.quantityRequested == data.quantityRequested
      && req.startDate == data.startDate && req.endDate == data.endDate && req.notes == data.notes
      && req.adminNotes.None? && req.approvedBy.None? && req.approvedAt.None?
      && req.borrowedAt.None? && req.returnedAt.None?
      && req.userId == 2 && req.userName == "Current User" && req.userRole == StudentRole
      && req.equipmentName == "Equipment Name" && req.equipmentCategory == "Category"
  {
    var req := BorrowRequest(
      id, 2, "Current User", StudentRole,
      data.equipmentId, "Equipment Name", "Category",
      data.quantityRequested, now, data.startDate, data.endDate,
      Pending, data.notes, None, None, None, None, None);
    Step([req] + store, Ok(req))
  }

  /** Replaces the first record with `id` by `patch` of it, the shape shared
      by the three updates. */
  function Overwrite(store: Store, id: int, patch: BorrowRequest -> BorrowRequest): (r: Step<Store, BorrowRequest>)
    ensures r.result.Err? <==> !HasId(store, id)
    ensures r.result.Err? ==> r.state == store && r.result.message == NotFound
    ensures forall i :: IsFirst(store, i, IdTest(id)) ==>
      r.state == store[i := patch(store[i])] && r.result == Ok(patch(store[i]))
  {
    match FindIndex(store, IdTest(id))
    case None => Step(store, Err(NotFound))
    case Some(i) => Step(store[i := patch(store[i])], Ok(patch(store[i])))
  }

  /** `approveReject(id, data)`: overwrites status, admin notes, approver
      (always user 1) and approval time; nothing else. */
  function ApproveReject(store: Store, id: int, data: Decision, now: Timestamp): (r: Step<Store, BorrowRequest>)
    ensures r.result.Err? <==> !HasId(store, id)
    ensures r.result.Err? ==> r.state == store && r.result.message == NotFound
    ensures forall i :: IsFirst(store, i, IdTest(id)) ==>
      && |r.state| == |store|
      && (forall j :: 0 <= j < |store| && j != i ==> r.state[j] == store[j])
      && r.state[i] == store[i].(status := data.status, adminNotes := Some(data.notes),
                                 approvedBy := Some(1), approvedAt := Some(now))
      && r.result == Ok(r.state[i])
  {
    Overwrite(store, id, (req: BorrowRequest) =>
      req.(status := data.status, adminNotes := Some(data.notes), approvedBy := Some(1), approvedAt := Some(now)))
  }

  /** `markBorrowed(id)`: overwrites status and borrow time only. */
  function MarkBorrowed(store: Store, id: int, now: Timestamp): (r: Step<Store, BorrowRequest>)
    ensures r.result.Err? <==> !HasId(store, id)
    ensures r.result.Err? ==> r.state == store && r.result.message == NotFound
    ensures forall i :: IsFirst(store, i, IdTest(id)) ==>
      && |r.state| == |store|
      && (forall j :: 0 <= j < |store| && j != i ==> r.state[j] == store[j])
      && r.state[i] == store[i].(status := Borrowed, borrowedAt := Some(now))
      && r.result == Ok(r.state[i])
  {
    Overwrite(store, id, (req: BorrowRequest) => req.(status := Borrowed, borrowedAt := Some(now)))
  }

  /** `markReturned(id)`: overwrites status and return time only. */
  function MarkReturned(store: Store, id: int, now: Timestamp): (r: Step<Store, BorrowRequest>)
    ensures r.result.Err? <==> !HasId(store, id)
    ensures r.result.Err? ==> r.state == store && r.result.message == NotFound
    ensures forall i :: IsFirst(store, i, IdTest(id)) ==>
      && |r.state| == |store|
      && (forall j :: 0 <= j < |store| && j != i ==> r.state[j] == store[j])
      && r.state[i] == store[i].(status := Returned, returnedAt := Some(now))
      && r.result == Ok(r.state[i])
  {
    Overwrite(store, id, (req: BorrowRequest) => req.(status := Returned, returnedAt := Some(now)))
  }

  /** The outcome of an update does not depend on the status the target
      record had: the updates perform no transition check. */
  lemma ApproveRejectIgnoresStatus(store: Store, i: int, id: int, previous: string, data: Decision, now: Timestamp)
    requires IsFirst(store, i, IdTest(id))
    ensures ApproveReject(store[i := store[i].(status := previous)], id, data, now) == ApproveReject(store, id, data, now)
  {
    var other := store[i := store[i].(status := previous)];
    assert IsFirst(other, i, IdTest(id));
    var after := ApproveReject(store, id, data, now);
    var afterOther := ApproveReject(other, id, data, now);
    assert afterOther.state[i] == after.state[i];
    assert afterOther.state == after.state;
  }

  lemma MarkBorrowedIgnoresStatus(store: Store, i: int, id: int, previous: string, now: Timestamp)
    requires IsFirst(store, i, IdTest(id))
    ensures MarkBorrowed(store[i := store[i].(status := previous)], id, now) == MarkBorrowed(store, id, now)
  {
    var other := store[i := store[i].(status := previous)];
    assert IsFirst(other, i, IdTest(id));
    var after := MarkBorrowed(store, id, now);
    var afterOther := MarkBorrowed(other, id, now);
    assert afterOther.state[i] == after.state[i];
    assert afterOther.state == after.state;
  }

  lemma MarkReturnedIgnoresStatus(store: Store, i: int, id: int, previous: string, now: Timestamp)
    requires IsFirst(store, i, IdTest(id))
    ensures MarkReturned(store[i := store[i].(status := previous)], id, now) == MarkReturned(store, id, now)
  {
    var other := store[i := store[i].(status := previous)];
    assert IsFirst(other, i, IdTest(id));
    var after := MarkReturned(store, id, now);
    var afterOther := MarkReturned(other, id, now);
    assert afterOther.state[i] == after.state[i];
    assert afterOther.state == after.state;
  }

  /** A created request is found by its id at once, and heads the list of
      pending requests, even when an older record shares its id. */
  lemma CreateThenLookUp(store: Store, data: BorrowData, id: int, now: Timestamp)
    ensures var step := Create(store, data, id, now);
      && GetById(step.state, id) == step.result
      && GetAll(step.state, ListFilters(Pending, 1)) == [step.result.value]
  {
    var step := Create(store, data, id, now);
    assert IsFirst(step.state, 0, IdTest(id));
    var pending := WithStatus(step.state, Pending);
    assert step.result.value in pending;
    assert pending[0] == step.result.value by {
      assert step.state == [step.result.value] + store;
    }
  }

  /** After an update, looking the id up returns the updated record. */
  lemma {:induction false} UpdateThenGetById(store: Store, id: int, data: Decision, now: Timestamp)
    requires HasId(store, id)
    ensures var step := ApproveReject(store, id, data, now); GetById(step.state, id) == step.result
    ensures var step := MarkBorrowed(store, id, now); GetById(step.state, id) == step.result
    ensures var step := MarkReturned(store, id, now); GetById(step.state, id) == step.result
  {
    var i := FindIndex(store, IdTest(id)).value;
    assert IsFirst(store, i, IdTest(id));
    assert IsFirst(ApproveReject(store, id, data, now).state, i, IdTest(id));
    assert IsFirst(MarkBorrowed(store, id, now).state, i, IdTest(id));
    assert IsFirst(MarkReturned(store, id, now).state, i, IdTest(id));
  }

  /** In particular the raw service lets a pending request skip straight to
      borrowed, or an already returned one go back to approved. */
  lemma ServiceDoesNotGuardTransitions(store: Store, i: int, id: int, now: Timestamp)
    requires IsFirst(store, i, IdTest(id))
    ensures store[i].status == Pending ==> MarkBorrowed(store, id, now).state[i].status == Borrowed
    ensures store[i].status == Returned ==> ApproveReject(store, id, Decision(Approved, ""), now).state[i].status == Approved
  {
  }
}
