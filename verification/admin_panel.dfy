/** The logic of `AdminPanel.js`: the role check, the status badge, the
    buttons the requests tab offers per status, and the dispatch of a
    button to the borrow service. Composing the offered buttons with the
    service updates yields the request lifecycle
    pending -> approved | rejected, approved -> borrowed, borrowed -> returned;
    the service itself checks none of it, and no step reserves or releases
    equipment. */
module AdminPanel {
  import opened Results
  import opened Records
  import BorrowService
  import AuthService
  import MockData
  import Seqs

  /** The two mock collections a request action can reach. */
  datatype Portal = Portal(equipment: seq<Equipment>, requests: BorrowService.Store)

  datatype Button = Approve | Reject | MarkBorrowed | MarkReturned

  const UpdateFailed := "Failed to update request"

  /** The action string each button hands to `handleRequestAction`. */
  function ActionName(b: Button): string {
    match b
    case Approve => "approve"
    case Reject => "reject"
    case MarkBorrowed => "borrowed"
    case MarkReturned => "returned"
  }

  /** The status a button is meant to move a request to. */
  function Target(b: Button): string {
    match b
    case Approve => Approved
    case Reject => Rejected
    case MarkBorrowed => Borrowed
    case MarkReturned => Returned
  }

  /** The lifecycle the admin panel implements, as a relation on statuses. */
  predicate Advances(from: string, to: string) {
    || (from == Pending && (to == Approved || to == Rejected))
    || (from == Approved && to == Borrowed)
    || (from == Borrowed && to == Returned)
  }

  /** The buttons the requests tab renders for a request in `status`, in
      render order. Every button moves the request one step along the
      lifecycle, and every lifecycle step has its button; rejected,
      returned and unknown statuses get none. */
  function OfferedButtons(status: string): (r: seq<Button>)
    ensures forall b :: b in r ==> Advances(status, Target(b))
    ensures forall to :: Advances(status, to) ==> exists b :: b in r && Target(b) == to
    ensures status == Rejected || status == Returned ==> r == []
    ensures |r| <= 2
    ensures forall i, j :: 0 <= i < j < |r| ==> r[i] != r[j]
  {
    var r := (if status == Pending then [Approve, Reject] else [])
      + (if status == Approved then [MarkBorrowed] else [])
      + (if status == Borrowed then [MarkReturned] else []);
    assert status == Pending ==> r == [Approve, Reject] && Target(Approve) == Approved && Target(Reject) == Rejected;
    assert status == Approved ==> r == [MarkBorrowed] && Target(MarkBorrowed) == Borrowed;
    assert status == Borrowed ==> r == [MarkReturned] && Target(MarkReturned) == Returned;
    r
  }

  /** `handleRequestAction(requestId, action, notes)`: approve and reject go
      to `approveReject` with the matching status and the notes, the other
      two to `markBorrowed` / `markReturned`, anything else to nothing. A
      service failure is reported as "Failed to update request" and leaves
      everything as it was. Only the request store can change. */
  function HandleRequestAction(portal: Portal, requestId: int, action: string, notes: string, now: Timestamp): (r: Step<Portal, ()>)
    ensures r.state.equipment == portal.equipment
    ensures r.result.Err? ==> r.state == portal && r.result.message == UpdateFailed
    ensures r.result.Err? <==>
      (action in {"approve", "reject", "borrowed", "returned"} && !BorrowService.HasId(portal.requests, requestId))
    ensures action == "approve" || action == "reject" ==>
      r.state.requests == BorrowService.ApproveReject(portal.requests, requestId,
        BorrowService.Decision(if action == "approve" then Approved else Rejected, notes), now).state
    ensures action == "borrowed" ==> r.state.requests == BorrowService.MarkBorrowed(portal.requests, requestId, now).state
    ensures action == "returned" ==> r.state.requests == BorrowService.MarkReturned(portal.requests, requestId, now).state
    ensures action !in {"approve", "reject", "borrowed", "returned"} ==> r == Step(portal, Ok(()))
  {
    match Dispatch(portal.requests, requestId, action, notes, now)
    case None => Step(portal, Ok(()))
    case Some(step) =>
      if step.result.Err? then Step(portal, Err(UpdateFailed))
      else Step(portal.(requests := step.state), Ok(()))
  }

  /** The service call an action string selects, if any. */
  function Dispatch(requests: BorrowService.Store, requestId: int, action: string, notes: string, now: Timestamp)
    : Option<Step<BorrowService.Store, BorrowRequest>>
  {
    if action == "approve" || action == "reject" then
      Some(BorrowService.ApproveReject(requests, requestId,
        BorrowService.Decision(if action == "approve" then Approved else Rejected, notes), now))
    else if action == "borrowed" then Some(BorrowService.MarkBorrowed(requests, requestId, now))
    else if action == "returned" then Some(BorrowService.MarkReturned(requests, requestId, now))
    else None
  }

  /** The notes an approve or reject button passes: what was typed for the
      request, or the `''` default when nothing was. */
  function NotesFor(typed: map<int, string>, id: int): string {
    if id in typed then typed[id] else ""
  }

  /** Pressing button `b` on the row of `request`. */
  function Click(portal: Portal, request: BorrowRequest, b: Button, typed: map<int, string>, now: Timestamp): Step<Portal, ()> {
    var notes := if b == Approve || b == Reject then NotesFor(typed, request.id) else "";
    HandleRequestAction(portal, request.id, ActionName(b), notes, now)
  }

  /** A button offered on a row moves that request exactly one lifecycle
      step, stamps it, and leaves every other request and all equipment
      alone, provided the row is the first request with its id. */
  lemma OfferedClickAdvances(portal: Portal, i: int, b: Button, typed: map<int, string>, now: Timestamp)
    requires 0 <= i < |portal.requests|
    requires Seqs.IsFirst(portal.requests, i, BorrowService.IdTest(portal.requests[i].id))
    requires b in OfferedButtons(portal.requests[i].status)
    ensures var r := Click(portal, portal.requests[i], b, typed, now);
      && r.result.Ok?
      && r.state.equipment == portal.equipment
      && |r.state.requests| == |portal.requests|
      && (forall j :: 0 <= j < |portal.requests| && j != i ==> r.state.requests[j] == portal.requests[j])
      && r.state.requests[i].status == Target(b)
      && Advances(portal.requests[i].status, r.state.requests[i].status)
      && var before := portal.requests[i];
      && (b == Approve || b == Reject ==>
            r.state.requests[i] == before.(status := Target(b), adminNotes := Some(NotesFor(typed, before.id)),
                                           approvedBy := Some(1), approvedAt := Some(now)))
      && (b == MarkBorrowed ==> r.state.requests[i] == before.(status := Borrowed, borrowedAt := Some(now)))
      && (b == MarkReturned ==> r.state.requests[i] == before.(status := Returned, returnedAt := Some(now)))
  {
    var req := portal.requests[i];
    assert BorrowService.HasId(portal.requests, req.id);
    var r := Click(portal, req, b, typed, now);
    match b
    case Approve =>
      var d := BorrowService.Decision(Approved, NotesFor(typed, req.id));
      assert r.state.requests == BorrowService.ApproveReject(portal.requests, req.id, d, now).state;
    case Reject =>
      var d := BorrowService.Decision(Rejected, NotesFor(typed, req.id));
      assert r.state.requests == BorrowService.ApproveReject(portal.requests, req.id, d, now).state;
    case MarkBorrowed =>
    case MarkReturned =>
  }

  /** With two requests sharing an id the gating breaks: Mark Returned on a
      borrowed row updates the pending request listed before it, a change
      the lifecycle does not allow. */
  lemma DuplicateIdsEscapeLifecycle(pending: BorrowRequest, borrowed: BorrowRequest, now: Timestamp)
    requires pending.status == Pending && borrowed.status == Borrowed && pending.id == borrowed.id
    ensures MarkReturned in OfferedButtons(borrowed.status)
    ensures var r := Click(Portal([], [pending, borrowed]), borrowed, MarkReturned, map[], now);
      && r.result.Ok?
      && r.state.requests[0].status == Returned
      && r.state.requests[1] == borrowed
      && !Advances(Pending, Returned)
  {
    assert Seqs.IsFirst([pending, borrowed], 0, BorrowService.IdTest(pending.id));
  }

  /** The lifecycle also assumes the clicked row shows the request's current
      status. The row and its buttons stay on screen while the service call
      is awaited and until the list is fetched again, so Approve and then
      Reject on the same pending row takes the request from approved to
      rejected, a step the lifecycle does not allow. */
  lemma StaleClickEscapesLifecycle(request: BorrowRequest, typed: map<int, string>, now: Timestamp, later: Timestamp)
    requires request.status == Pending
    ensures Approve in OfferedButtons(request.status) && Reject in OfferedButtons(request.status)
    ensures var approved := Click(Portal([], [request]), request, Approve, typed, now);
      var rejected := Click(approved.state, request, Reject, typed, later);
      && approved.result.Ok? && approved.state.requests[0].status == Approved
      && rejected.result.Ok? && rejected.state.requests[0].status == Rejected
      && !Advances(Approved, Rejected)
  {
    var approved := Click(Portal([], [request]), request, Approve, typed, now);
    assert Seqs.IsFirst([request], 0, BorrowService.IdTest(request.id));
    assert approved.state.requests[0].id == request.id;
    assert Seqs.IsFirst(approved.state.requests, 0, BorrowService.IdTest(request.id));
  }

  /** `getStatusColor(status)`: the badge of each status; "secondary" for
      returned and for anything unrecognised. */
  function StatusColor(status: string): (r: string)
    ensures r in {"warning", "success", "primary", "secondary", "danger"}
    ensures r == "secondary" <==> status !in {Pending, Approved, Borrowed, Rejected}
    ensures status == Pending ==> r == "warning"
    ensures status == Approved ==> r == "success"
    ensures status == Borrowed ==> r == "primary"
    ensures status == Rejected ==> r == "danger"
  {
    if status == Pending then "warning"
    else if status == Approved then "success"
    else if status == Borrowed then "primary"
    else if status == Returned then "secondary"
    else if status == Rejected then "danger"
    else "secondary"
  }

  /** Pending, approved, borrowed and rejected requests get four different
      badges. */
  lemma StatusColorsDistinct(a: string, b: string)
    requires a in {Pending, Approved, Borrowed, Rejected} && b in {Pending, Approved, Borrowed, Rejected}
    requires a != b
    ensures StatusColor(a) != StatusColor(b)
  {
  }

  /** The role check guarding the panel: `user?.role` must be "admin" or
      "staff"; no user, no role, or any other role is denied. */
  function HasAccess(user: Option<AuthService.Object>): (granted: bool)
    ensures granted <==> (user.Some? && "role" in user.value
      && user.value["role"] in {AuthService.Str(AdminRole), AuthService.Str(StaffRole)})
  {
    match user
    case None => false
    case Some(u) => "role" in u && (u["role"] == AuthService.Str(AdminRole) || u["role"] == AuthService.Str(StaffRole))
  }

  /** Signing in as the fixture student gives no access to the panel; the
      fixture admin and staff users get it. */
  lemma FixtureAccess(storage: AuthService.Storage, password: string)
    ensures var s := AuthService.Login(MockData.MockUsers, storage, AuthService.Credentials("student", password)).state;
      !HasAccess(AuthService.CurrentUser(s))
    ensures var s := AuthService.Login(MockData.MockUsers, storage, AuthService.Credentials("admin", password)).state;
      HasAccess(AuthService.CurrentUser(s))
    ensures var s := AuthService.Login(MockData.MockUsers, storage, AuthService.Credentials("staff", password)).state;
      HasAccess(AuthService.CurrentUser(s))
  {
    assert Seqs.IsFirst(MockData.MockUsers, 0, AuthService.UsernameTest("admin"));
    assert Seqs.IsFirst(MockData.MockUsers, 1, AuthService.UsernameTest("student"));
    assert Seqs.IsFirst(MockData.MockUsers, 2, AuthService.UsernameTest("staff"));
  }

  /** Registration keeps a caller-chosen role, so a self-registered "admin"
      passes the panel's role check. */
  lemma SelfRegisteredAdminHasAccess(storage: AuthService.Storage, data: AuthService.Registration, id: int, now: Timestamp)
    requires data.role == AdminRole
    requires !AuthService.Taken(MockData.MockUsers, data)
    ensures HasAccess(AuthService.CurrentUser(AuthService.Register(MockData.MockUsers, storage, data, id, now).state))
  {
  }
}
