# Equipment-lending portal: mock services and request lifecycle

A Dafny model of the logic of a school equipment-lending portal's front end:

- the in-memory borrow-request store (`borrowService.js`): listing with a status filter and a limit, lookup, creation, and the three admin updates;
- the equipment catalogue filter and lookup (`equipmentService.js`);
- the fixture state (`mockData.js`);
- the mock authentication over the browser's storage (`authService.js`);
- the admin panel's role check, status badges, per-status buttons and action dispatch (`AdminPanel.js`);
- the borrow form's submit checks (`BorrowModal.js`) and the profile form's password checks and update payload (`Profile.js`).

Every operation is a pure function. The service operations that change state return a `Step`: the new state, plus either a value or the error message the service throws. `AdminPanel.HandleRequestAction` also returns a `Step`, but its error is the text of the `alert` the panel shows. A failing `Step` always carries back the state it was given. The two form handlers return a record of what the component leaves behind: `BorrowModal.HandleSubmit` a `ModalState`, and `Profile.HandleSubmit` a `ProfileState` that includes the storage after the update.

No operation reserves stock at approval or releases it on return, and no service refuses an out-of-order transition: the updates overwrite fields without looking at the current status, and no operation touches equipment quantities. The lifecycle pending → approved | rejected, approved → borrowed, borrowed → returned exists only because the admin panel offers buttons per status. `AdminPanel.OfferedClickAdvances` proves the lifecycle for that composition when the clicked row shows the request's current status, that is, when each click is handled against a fresh list. `BorrowService.ServiceDoesNotGuardTransitions`, `AdminPanel.DuplicateIdsEscapeLifecycle` and `AdminPanel.StaleClickEscapesLifecycle` show where the code departs from it: the raw service accepts any transition, a repeated id redirects a click to another request, and a row whose buttons are pressed twice before the list is fetched again can go from approved to rejected.

Conventions:

- Dates are instants in epoch milliseconds.
- `null` is `None`.
- An empty string stands for an absent or falsy filter value.
- Statuses, conditions and roles stay strings, as in the code.
- A form value that JavaScript would read as NaN is `None`, and every comparison with it is false.

## Model

| member | source | states |
|---|---|---|
| BorrowService.WithStatus | src/services/borrowService.js:12-14 | the status filter keeps exactly the records with that status, with their multiplicities, in store order |
| BorrowService.GetAll | src/services/borrowService.js:9-20 | result is a prefix of the status-filtered list; limit n > 0 keeps min(n, len); 0 keeps everything; a negative limit drops that many trailing records; every result is a stored record of the requested status |
| BorrowService.GetAllUnfiltered | src/services/borrowService.js:9-20 | with no status and no limit the whole store is returned |
| BorrowService.GetById | src/services/borrowService.js:35-37 | the first record with the id, or "Request not found" exactly when no record has it |
| BorrowService.Create | src/services/borrowService.js:48-72 | exactly one record is prepended and the old ones follow unchanged; it is pending with all stamps null, carries the form's equipment, quantity, dates and notes, and the mock's fixed requester and snapshot placeholders |
| BorrowService.CreateThenLookUp | src/services/borrowService.js:35-72 | a created request is returned by getById for its id, even when an older record shares the id, and heads the pending list |
| BorrowService.ApproveReject | src/services/borrowService.js:83-94 | fails with "Request not found" and leaves the store unchanged on an unknown id; otherwise only the first record with the id changes, and only its status, admin notes, approver (1) and approval time |
| BorrowService.MarkBorrowed | src/services/borrowService.js:105-114 | unknown id fails with the store unchanged; otherwise only the target's status (borrowed) and borrow time change |
| BorrowService.MarkReturned | src/services/borrowService.js:125-134 | unknown id fails with the store unchanged; otherwise only the target's status (returned) and return time change |
| BorrowService.UpdateThenGetById | src/services/borrowService.js:83-134 | after any of the three updates, getById for the id returns the updated record |
| BorrowService.ApproveRejectIgnoresStatus | src/services/borrowService.js:83-92 | the outcome is the same whatever status the target record had |
| BorrowService.MarkBorrowedIgnoresStatus | src/services/borrowService.js:105-112 | the outcome is the same whatever status the target record had |
| BorrowService.MarkReturnedIgnoresStatus | src/services/borrowService.js:125-132 | the outcome is the same whatever status the target record had |
| BorrowService.ServiceDoesNotGuardTransitions | src/services/borrowService.js:86-112 | the raw service moves a pending request straight to borrowed and a returned one back to approved |
| EquipmentService.GetAll | src/services/equipmentService.js:9-37 | an item is listed iff it is in the catalogue and passes every active filter; with no active filter the catalogue is returned unchanged |
| EquipmentService.GetAllIsOneFilter | src/services/equipmentService.js:12-35 | the four sequential filters equal one filter by their conjunction, so the result is an order-preserving subsequence with each admitted item's multiplicity |
| EquipmentService.GetAllStepOrderIrrelevant | src/services/equipmentService.js:12-35 | taking the four filter steps in the opposite order lists the same items in the same order |
| EquipmentService.GetAllIdempotent | src/services/equipmentService.js:12-35 | filtering the result again with the same filters returns it unchanged |
| EquipmentService.GetAllUnfiltered | src/services/equipmentService.js:9-37 | with no filter set the whole catalogue is listed, in order |
| EquipmentService.MatchesAreSubstrings | src/services/equipmentService.js:12-35 | the category filter holds iff the lower-cased text occurs in the lower-cased category; the search filter holds iff it occurs in the lower-cased name or description |
| EquipmentService.CategoryIsSubstring | src/services/equipmentService.js:12-16 | as a consequence, "equipment" matches the category "Lab Equipment": the filter is not an equality |
| EquipmentService.GetById | src/services/equipmentService.js:52-53 | the first item with the id, or "Equipment not found" exactly when none has it |
| Text.IncludesIffOccurs | src/services/equipmentService.js:14 | the `includes` scan succeeds exactly when the text occurs at some position |
| MockData.FixtureQuantitiesInBounds | src/services/mockData.js:29-85 | every fixture item has 0 <= available <= total |
| MockData.FixtureCategoriesMatchCatalogue | src/services/mockData.js:141 | the category list is the fixture items' categories, in order |
| MockData.FixtureStatsDerivable | src/services/mockData.js:130-132 | totalEquipment is the number of items (5) and availableEquipment the sum of available quantities (32) |
| MockData.FixturePendingStatIsNotDerived | src/services/mockData.js:134 | pendingRequests (3) differs from the single pending fixture request |
| MockData.FixtureSnapshotsConsistent | src/services/mockData.js:87-128 | each fixture request names an existing item and copies its name and category |
| MockData.FixtureDatesOrdered | src/services/mockData.js:97-119 | each fixture request has request date <= start date < end date |
| MockData.FixtureStamps | src/services/mockData.js:100-126 | the pending fixture has no stamps; the approved one has approver and approval time and no borrow or return time |
| MockData.FixtureUsersDistinct | src/services/mockData.js:2-27 | fixture users have pairwise distinct ids, usernames and emails |
| AuthService.FindByUsername | src/services/authService.js:10-12 | the first user with the username, or nothing exactly when none has it |
| AuthService.Login | src/services/authService.js:10-27 | an unknown username fails with "Invalid credentials" and writes nothing; a known one stores token `mock_jwt_token_<id>` and the user, and returns both |
| AuthService.LoginIgnoresPassword | src/services/authService.js:18-22 | the outcome does not depend on the password |
| AuthService.TokenForInjective | src/services/authService.js:21 | distinct user ids give distinct tokens |
| AuthService.Register | src/services/authService.js:44-68 | fails, storage unchanged, iff the username or email is already used; otherwise signs in a new user whose role is the given one or "student" |
| AuthService.RegisteredUserCannotLogIn | src/services/authService.js:53-68 | registering does not extend the user table, so logging in under the new username fails |
| AuthService.Logout | src/services/authService.js:80-83 | removes the token and user keys and keeps every other key |
| AuthService.LogoutEndsSession | src/services/authService.js:80-120 | after logout the user is not authenticated and there is no current user or profile |
| AuthService.GetProfile | src/services/authService.js:88-90 | the stored user, or "Not authenticated" exactly when none is stored |
| AuthService.UpdateProfile | src/services/authService.js:100-105 | fails, storage unchanged, with no current user; otherwise the stored user becomes the current user overridden key by key by the supplied data |
| AuthService.UpdateThenGetProfile | src/services/authService.js:85-105 | after a successful update, getProfile returns the merged user |
| AuthService.CurrentUser | src/services/authService.js:113-116 | the stored user object exactly when a serialised user entry is stored, otherwise null; no user entry means no user |
| AuthService.IsAuthenticated | src/services/authService.js:118-120 | authenticated only when a token is stored; a stored empty token is not authenticated (`!!""` is false) and any non-empty token is |
| AuthService.SessionEntriesIndependent | src/services/authService.js:113-120 | writing the token never changes the current user, and writing the user never changes whether the session is authenticated |
| AuthService.SignInIsObservable | src/services/authService.js:113-120 | after a sign-in the user is authenticated and the current user is the one returned |
| AdminPanel.OfferedButtons | src/pages/AdminPanel.js:207-240 | every offered button moves the request one lifecycle step and every lifecycle step is offered, each button at most once and at most two per row; rejected and returned requests get no button |
| AdminPanel.HandleRequestAction | src/pages/AdminPanel.js:39-58 | approve/reject dispatch approveReject with status approved/rejected and the notes; borrowed/returned dispatch markBorrowed/markReturned; other actions do nothing; a failure leaves everything unchanged; equipment never changes |
| AdminPanel.OfferedClickAdvances | src/pages/AdminPanel.js:39-50 | a button offered on the first record with its id succeeds, moves that record one lifecycle step to the button's status with the stamps of that update (approver 1, the typed or empty notes and the approval time; or the borrow or return time), and changes no other record and no equipment |
| AdminPanel.DuplicateIdsEscapeLifecycle | src/pages/AdminPanel.js:233-240 | with a repeated id, Mark Returned on a borrowed row turns the earlier pending request into returned |
| AdminPanel.StaleClickEscapesLifecycle | src/pages/AdminPanel.js:39-53 | Approve and then Reject pressed on the same pending row, with no refresh between them, both succeed and leave the request rejected after it was approved, a step outside the lifecycle |
| AdminPanel.StatusColor | src/pages/AdminPanel.js:60-68 | pending is "warning", approved "success", borrowed "primary", rejected "danger"; "secondary" exactly for returned and unknown statuses |
| AdminPanel.StatusColorsDistinct | src/pages/AdminPanel.js:60-68 | pending, approved, borrowed and rejected get four different badges |
| AdminPanel.HasAccess | src/pages/AdminPanel.js:71-79 | access iff a user is present and its role is "admin" or "staff" |
| AdminPanel.FixtureAccess | src/pages/AdminPanel.js:71 | signed in as the fixture student the panel is denied; as the fixture admin or staff it is granted |
| AdminPanel.SelfRegisteredAdminHasAccess | src/services/authService.js:58 | a user who registers with role "admin" passes the panel's role check |
| BorrowModal.Validate | src/components/BorrowModal.js:26-39 | the checks run in order and the first failing one gives the message; none fails iff quantity <= available, start not before now and end after start, under JavaScript's NaN comparisons |
| BorrowModal.AcceptedIff | src/components/BorrowModal.js:26-39 | for numeric values the form is accepted iff quantity <= available, now <= start and start < end |
| BorrowModal.NoLowerBoundOnQuantity | src/components/BorrowModal.js:26-29 | a zero or negative quantity passes the handler |
| BorrowModal.QuantityMessageReportsCount | src/components/BorrowModal.js:26-28 | the quantity error quotes the available count, which can be read back from it |
| BorrowModal.EmptyDatesPassHandler | src/components/BorrowModal.js:31-39 | the initial form (quantity 1, empty dates and notes) passes the handler's own checks when an item is available |
| BorrowModal.TodayRefusedAfterMidnight | src/components/BorrowModal.js:31-34 | a start date equal to today's date is refused whenever now is past midnight UTC |
| BorrowModal.HandleSubmit | src/components/BorrowModal.js:21-50 | on a failed check the error is set and onSubmit is not called; otherwise onSubmit gets the unchanged form once, and a failure shows the server error or "Failed to create borrow request" |
| Profile.CheckPasswords | src/pages/Profile.js:44-53 | with no new password nothing is checked; otherwise a missing current password and then a mismatched confirmation are refused with their messages |
| Profile.Payload | src/pages/Profile.js:58-66 | name and email always; current and new password only when a new password is typed; never the confirmation |
| Profile.HandleSubmit | src/pages/Profile.js:38-84 | a failed check or a missing user leaves form and storage unchanged with an error; passing checks with a stored user always succeed; success clears the three password fields and stores the merged user |
| Profile.SuccessKeepsNameAndEmail | src/pages/Profile.js:72-78 | after success the form keeps name and email, the password fields are empty, and the stored user carries the new name and email |
| Profile.PasswordChangeIsStoredWithUser | src/pages/Profile.js:63-68 | a password change writes the typed current and new passwords into the stored user object |
| Profile.NoPasswordChangeLeavesPasswordsAlone | src/pages/Profile.js:58-61 | without a new password every stored key other than name and email keeps its value |

## Left out

- Non-mock branches of every service (`api.get/post/put/delete`, `URLSearchParams`) and equipment `create`, `update` and `delete`. They call a network module that is not part of this model.
- `getCategories` returns the fixture category list; `MockData.FixtureCategoriesMatchCatalogue` states what that list holds.
- `getStats` returns the fixture statistics as a constant; only the two derivable counts are related to the fixtures.
- `delay()` and `async`/`await` are not modelled. Each operation is one atomic step.
- `Date.now()` ids and `new Date().toISOString()` stamps are parameters (`id`, `now`).
- ISO date strings are modelled as epoch-millisecond instants.
- `JSON.stringify`/`JSON.parse` are the identity between a storage entry and its object.
- `AuthService.CurrentUser` reads a raw non-empty, non-JSON `user` entry as no user; in the browser, `JSON.parse` would throw instead. No operation of the portal writes such an entry.
- `toLowerCase` is modelled for ASCII letters only.
- `parseInt` on string ids and limits is left out: ids and limits are integers. A string limit such as "0", which is truthy but parses to 0, is therefore not modelled.
- Form values reach the model already read as JavaScript numbers: `BorrowModal.Number` is the value after coercion. Fractional quantities are not modelled.
- The wiring in `Equipment.js` from the borrow form to `create` is not modelled, so the form's date fields and the stored dates are separate types.
- Rendering and React state are not modelled: JSX, CSS, routing, `handleChange`, and the profile form's initialisation from the current user. The refresh after an admin action, `alert`/`console` output and loading flags are left out too.
- `updateUser` of the authentication context is not part of this model.
- The authentication context (`AuthContext`) is not part of this model. `AdminPanel.FixtureAccess` and `AdminPanel.SelfRegisteredAdminHasAccess` take the context's `user` to be the stored user, `AuthService.CurrentUser`.
- `Equipment.js`, `BorrowRequests.js`, `Dashboard.js` and `Navbar.js` only render, or repeat the status colours and role checks modelled here.
