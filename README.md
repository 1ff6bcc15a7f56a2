# My-Thrift-Admin: a verified model of the admin console's data logic

My-Thrift-Admin is an admin console for an e-commerce platform. It is a React
single-page app over Firebase Authentication and Firestore, plus an HTTPS
Cloud Function. This project models the three parts of it that hold real logic
and proves what they promise.

- **Vendor erase** (`deleteVendorAndData`, module `VendorEraser`). A POST
  deletes the vendor's authentication principal and then commits one write
  batch. The batch holds the vendor document and every product whose `vendorId`
  is the vendor's uid.
  - The two Firebase services are the fields of a `Backend` class: the auth uid
    set and the `vendors` and `products` maps.
  - The handler is an imperative method. It fills the batch, a sequence of
    document references, in a loop over the query snapshot, then commits it.
  - It is proved equal to a reference function `Erase`. The lemmas about
    `Erase` state ordering, consistency and "nothing else changes".
- **The two admin list pages** ("Manage Users" and "Manage Vendors", modules
  `ManageUsers`, `VendorApproval`, sharing `AdminLists`, `Paging`, `Seqs` and
  `Text`). They cover:
  - the case-insensitive search filter, the 15-item page slice, the page count
    and the page-click offset;
  - checkbox selection, the activated and deactivated counts, and the
    activate/deactivate toggle;
  - bulk deactivation, a loop of `updateDoc` writes on a Firestore collection
    (the `Documents.Collection` class);
  - the save payload with its `""` defaults.
- **The admin route guard** (`RouteGuard.PrivateRoute`). It shows a spinner,
  redirects to `/login`, or renders the protected page.

Firestore documents are `Documents.Doc` values: the id, the string fields
(absent means `undefined`) and the optional `isDeactivated` flag. JavaScript
truthiness of a missing flag is false. `updateDoc` fails when no document has
the id, like Firestore's "not found", and otherwise merges the patch.

Inputs the model takes as parameters: the list a fetch returned, the search
term, the page the pagination widget reports and the auth context triple.
Collaborator failures are parameters too: an auth outage, a failed product
query and a failed commit (`VendorEraser.Faults`).

Where the design notes and the code disagree, the model follows the code:

- `functions/index.js` defines only `deleteVendorAndData`. The design notes also
  describe `deleteUserAndData` (its source is not part of this model), an
  `InconsistentState` error, and chunked batches. None of these is in the code.
- The code answers every failure after the method check with the same
  `500 {success: false, error}` envelope. That includes a failed commit after
  the principal was already deleted. `VendorEraser.LateFailureIsInconsistentButGeneric`
  states exactly this.
- A malformed or missing `uid` gets no error of its own either. The SDK's
  `deleteUser` throws, and the same 500 envelope comes back.
- A uid that `deleteUser` accepts can still contain a `/`. For some such uids
  `collection("vendors").doc(uid)` throws after the principal was deleted, and
  the answer is the same 500 with every document in place. The model treats
  every slashed uid this way (see "Left out").
- The `cors` wrapper answers an OPTIONS preflight itself with 204, so only other
  methods reach the 403 check.

## Model

| member | source | states |
|---|---|---|
| `Text.ToLowerCase` | src/pages/ManageUsers.jsx:80-86 | the lower-cased string has the same length, contains no capital, and differs from the input only at capitals, each moved down by 32 |
| `Text.Includes` | src/pages/ManageUsers.jsx:80-86 | no contract of its own: `String.prototype.includes` as a left-to-right scan of start positions, characterised by `Text.IncludesCorrect` |
| `Text.IncludesCorrect` | src/pages/ManageUsers.jsx:79-86 | `includes(s, t)` holds exactly when `t` occurs in `s` at some index |
| `Text.IncludesInfix` | functions/index.js:42 | a string includes every one of its infixes |
| `Seqs.Filter` | src/pages/ManageUsers.jsx:76-87 | `filter` keeps exactly the elements satisfying the predicate, is no longer than its input and is a sub-multiset of it |
| `Seqs.FilterConcat` | src/pages/ManageUsers.jsx:76 | filtering distributes over concatenation, so it preserves order |
| `Seqs.FilterKeepsAll` | src/pages/ManageUsers.jsx:77-78 | a predicate true of every element gives back the list itself |
| `Seqs.FilterSplitCount` | src/pages/ManageUsers.jsx:53-54 | the elements a predicate keeps plus those its negation keeps number the whole list |
| `Seqs.FilterDropsSome` | src/pages/ManageUsers.jsx:105 | a filter that rejects a present element returns a strictly shorter list |
| `Seqs.FilterNoDuplicates` | src/pages/ManageUsers.jsx:105 | filtering a duplicate-free list gives a duplicate-free list |
| `Paging.PageCount` | src/pages/ManageUsers.jsx:61 | `Math.ceil(n / size)`: the pages hold all `n` items, one page fewer would not, and the count is 0 exactly for an empty list |
| `Paging.PageOffset` | src/pages/ManageUsers.jsx:98 | the offset is a number exactly when the list is non-empty, and then lies in `[0, n)`; on an empty list it is `NaN` |
| `Paging.OffsetOfListedPage` | src/pages/ManageUsers.jsx:98 | for a page the page count lists, the modulo is the identity: page `p` starts at `p * 15` |
| `Paging.Page` | src/pages/ManageUsers.jsx:93 | `slice(offset, offset + size)` holds at most `size` items and they are the list's items from the offset on; it is empty past the end or for a `NaN` offset |
| `Paging.EveryItemOnItsPage` | src/pages/ManageUsers.jsx:93-99 | when paging over the sliced list itself, item `i` appears at position `i % size` of page `i / size`, which is a listed page |
| `Paging.SecondPageOfShortList` | src/pages/ManageUsers.jsx:93-99 | an offset taken over a longer list than the one sliced shows nothing on page 2 when at most one page of items is kept |
| `Documents.Collection.UpdateDoc` | src/pages/ManageUsers.jsx:123 | `updateDoc` succeeds exactly when the document exists; it then merges the patch into that document alone and logs the write; otherwise nothing changes |
| `Documents.Patched` | src/pages/ManageUsers.jsx:191 | `updateDoc`'s merge keeps the id; a flag patch sets the flag and keeps the fields; a field patch sets each given field, keeps every other field and the flag, and adds no other key; same at src/pages/ManageUsers.jsx:123 and 257-262 |
| `AdminLists.SearchFilter` | src/pages/ManageUsers.jsx:76-87 | keeps exactly the documents matching the search (all of them for an empty term), is no longer than the input and is a sub-multiset of it; same code at src/pages/VendorApproval.jsx:90-97 |
| `AdminLists.SearchFilterConcat` | src/pages/ManageUsers.jsx:76-87 | the search distributes over concatenation, so the kept documents stay in list order |
| `AdminLists.SearchIgnoresCase` | src/pages/ManageUsers.jsx:79-86 | two terms with the same lower case, over fields with the same lower case, match alike |
| `AdminLists.FieldContainingTermMatches` | src/pages/ManageUsers.jsx:79-86 | a document whose searched field contains the term verbatim is kept |
| `AdminLists.Summarize` | src/pages/ManageUsers.jsx:53-61 | total is the list length, activated plus deactivated equals the total, and the page count is the ceiling of total / 15; same code at src/pages/VendorApproval.jsx:65-76 |
| `AdminLists.SummarizeAppend` | src/pages/ManageUsers.jsx:53-54 | the empty list counts nothing; one more document adds one to the deactivated count exactly when its flag is truthy, and to the activated count otherwise; same code at src/pages/VendorApproval.jsx:65-70 |
| `AdminLists.ToggleSelection` | src/pages/ManageUsers.jsx:103-109 | a selected id loses every occurrence (the list gets shorter) and the other ids stay as an order-preserving filter of the selection; an unselected id is appended at the end; other ids keep their membership; same code at src/pages/VendorApproval.jsx:107-113 |
| `AdminLists.ToggleSelectionTwice` | src/pages/ManageUsers.jsx:103-109 | ticking and unticking an unselected id restores the selection exactly |
| `AdminLists.ToggleSelectionNoDuplicates` | src/pages/ManageUsers.jsx:103-109 | toggling keeps a duplicate-free selection duplicate-free |
| `AdminLists.ToggleActive` | src/pages/ManageUsers.jsx:197-201 | same length, ids and fields; records with another id are unchanged; records with the id get the opposite status; same code at src/pages/VendorApproval.jsx:204-208 |
| `AdminLists.ToggleActiveTwice` | src/pages/ManageUsers.jsx:197-201 | toggling twice restores every status, and restores the list exactly when the toggled records had the flag set |
| `AdminLists.ToggleClick` | src/pages/ManageUsers.jsx:187-201 | one click on an existing record stores that same document with only its flag replaced by an explicit negation of the clicked snapshot's status (not of the stored one), keeps every other document, and flips the listed copies; a click on a missing record changes nothing |
| `AdminLists.HandleToggleActive` | src/pages/ManageUsers.jsx:187-208 | one `updateDoc` writing the negation of the clicked snapshot's flag; the list is flipped only when that write succeeded; same code at src/pages/VendorApproval.jsx:196-214 |
| `AdminLists.StaleSnapshotDiverges` | src/pages/ManageUsers.jsx:187-201 | two clicks on one detail view leave the store saying deactivated and the list saying active |
| `AdminLists.SyncedToggleKeepsAgreement` | src/pages/ManageUsers.jsx:187-201 | with the snapshot flipped along, each click flips the stored status and store, list and snapshot keep agreeing |
| `AdminLists.DeactivateAll` | src/pages/ManageUsers.jsx:121-124 | no contract of its own: the writes of the bulk loop applied in order, characterised by `AdminLists.DeactivateAllEffect` |
| `AdminLists.DeactivateAllEffect` | src/pages/ManageUsers.jsx:121-124 | writing `isDeactivated: true` to a list of ids deactivates exactly those documents, changes nothing else of them, and leaves all other documents alone |
| `AdminLists.FirstMissing` | src/pages/ManageUsers.jsx:121-124 | the index of the first selected id with no document: all earlier ones exist |
| `AdminLists.BulkDeactivate` | src/pages/ManageUsers.jsx:112-134 | an empty selection is rejected with no write; otherwise the ids are written in selection order up to the first missing document, and the selection is cleared only if all writes succeeded; same code at src/pages/VendorApproval.jsx:115-134 |
| `AdminLists.SavePayload` | src/pages/ManageUsers.jsx:257-262 | the payload has exactly the listed fields, each the edited value or `""` when missing; same code at src/pages/VendorApproval.jsx:224-232 |
| `AdminLists.SaveWritesEveryField` | src/pages/ManageUsers.jsx:256-262 | after the save every listed field is present with its payload value, other fields, id and flag are unchanged |
| `AdminLists.SaveIdempotent` | src/pages/ManageUsers.jsx:256-262 | saving the saved document again writes the same payload and changes nothing |
| `AdminLists.SaveEdits` | src/pages/ManageUsers.jsx:256-262 | one `updateDoc` of the payload to the edited record's id, failing when the document is gone |
| `ManageUsers.FilteredUsers` | src/pages/ManageUsers.jsx:76-87 | a user is kept iff the term is empty or the lower-cased `displayName`, `username` or `email` includes the lower-cased term; an empty term keeps the list as is; the result is a sub-multiset of the list |
| `ManageUsers.FilteredUsersConcat` | src/pages/ManageUsers.jsx:76-87 | the user search distributes over concatenation, so kept users stay in list order |
| `ManageUsers.CurrentItems` | src/pages/ManageUsers.jsx:74-94 | the shown users are the filtered users from the offset on, `min(15, filtered - offset)` of them; none past the end or for a `NaN` offset |
| `ManageUsers.HandlePageClick` | src/pages/ManageUsers.jsx:97-100 | the offset lies in `[0, number of users)` for a non-empty list, is `NaN` for an empty one, and is `selected * 15` for every listed page |
| `ManageUsers.HandleSaveChanges` | src/pages/ManageUsers.jsx:253-271 | with no user selected nothing happens; otherwise the four profile fields are merged into that user's document with exactly one logged write, or the write fails when it is gone and nothing changes |
| `ManageUsers.SearchOnSecondPageShowsNothing` | src/pages/ManageUsers.jsx:93-99 | on page 2 of more than 15 users, a search that at most 15 users match shows no user at all |
| `ManageUsers.CorrectedCurrentItems` | src/pages/ManageUsers.jsx:93-99 | the corrected page holds at most 15 filtered users |
| `ManageUsers.CorrectedPagingShowsEveryMatch` | src/pages/ManageUsers.jsx:93-99 | with the corrected page every matching user is shown on a listed page |
| `VendorApproval.FilteredVendors` | src/pages/VendorApproval.jsx:90-97 | a vendor is kept iff the term is empty or the lower-cased `shopName` or `email` includes the lower-cased term; an empty term keeps the list as is; the result is a sub-multiset of the list |
| `VendorApproval.FilteredVendorsConcat` | src/pages/VendorApproval.jsx:90-97 | the vendor search distributes over concatenation, so kept vendors stay in list order |
| `VendorApproval.CurrentItems` | src/pages/VendorApproval.jsx:88-100 | the shown vendors are the filtered vendors from the offset on, `min(15, filtered - offset)` of them; none past the end or for a `NaN` offset |
| `VendorApproval.HandlePageClick` | src/pages/VendorApproval.jsx:102-105 | the offset lies in `[0, number of vendors)` for a non-empty list, is `NaN` for an empty one, and is `selected * 15` for every listed page |
| `VendorApproval.HandleSaveChanges` | src/pages/VendorApproval.jsx:216-240 | with no vendor selected it reports an error and writes nothing; otherwise the seven vendor fields (`""` when missing) are merged into that vendor's document with exactly one logged write, or the write fails when it is gone and nothing changes |
| `VendorApproval.SearchOnSecondPageShowsNothing` | src/pages/VendorApproval.jsx:99-104 | on page 2 of more than 15 vendors, a search that at most 15 vendors match shows no vendor at all |
| `VendorApproval.CorrectedCurrentItems` | src/pages/VendorApproval.jsx:99-104 | the corrected page holds at most 15 filtered vendors |
| `VendorApproval.CorrectedPagingShowsEveryMatch` | src/pages/VendorApproval.jsx:99-104 | with the corrected page every matching vendor is shown on a listed page |
| `RouteGuard.PrivateRoute` | src/Components/AdminRules/Privateroutes.jsx:6-23 | loading gives the spinner; the page is rendered iff not loading, a user is present and `isAdmin` holds; every other case redirects, and every redirect goes to `/login` |
| `RouteGuard.DependsOnlyOnPresence` | src/Components/AdminRules/Privateroutes.jsx:7-23 | the decision depends on whether a user is present, not on which user |
| `RouteGuard.NonAdminNeverSeesChildren` | src/Components/AdminRules/Privateroutes.jsx:18-20 | an absent user or a non-admin never gets the protected page |
| `VendorEraser.ApplyBatch` | functions/index.js:22-36 | no contract of its own: the batch's deletions in batch order, characterised by `VendorEraser.ApplyBatchRemoves` |
| `VendorEraser.ApplyBatchRemoves` | functions/index.js:18-36 | committing the batch removes exactly the referenced vendor and product documents, in any order, and leaves the auth set alone |
| `VendorEraser.Erase` | functions/index.js:6-49 | one request never creates a principal or a document, changes documents only when it answers 200, and answers 200, 204, 403 or 500 |
| `VendorEraser.PreflightIsAnsweredByCors` | functions/index.js:7 | an OPTIONS preflight is answered by `cors` with 204 and an empty body, and changes nothing |
| `VendorEraser.NonPostIsForbidden` | functions/index.js:8-10 | a request that reaches the handler and is not a POST gets `403 "Forbidden!"` and changes nothing |
| `VendorEraser.AuthFailureChangesNothing` | functions/index.js:14-16 | when the principal cannot be deleted (bad or unknown uid, auth outage) nothing changes and the answer is a 500 failure |
| `VendorEraser.SuccessIff` | functions/index.js:8-46 | the answer is 200 exactly for a POST with a valid, known uid that contains no `/`, when no collaborator fails |
| `VendorEraser.SuccessSweepsExactlyTheVendor` | functions/index.js:16-36 | after a success the principal and vendor document are gone and no product of the vendor remains; every other principal, vendor and product is untouched |
| `VendorEraser.VendorWithoutProducts` | functions/index.js:25-33 | a vendor with no products still succeeds, removing exactly its document |
| `VendorEraser.SuccessMessageNamesVendor` | functions/index.js:38-43 | the success body is `success: true` with a message that includes the uid |
| `VendorEraser.LateFailureIsInconsistentButGeneric` | functions/index.js:16-46 | a uid with a `/`, a failed query or a failed commit leaves every document in place but the principal deleted, and answers with the same 500 failure as a request that changed nothing |
| `VendorEraser.SecondEraseFails` | functions/index.js:16 | erasing the same vendor again after a success fails and changes nothing |
| `VendorEraser.Backend.DeleteUser` | functions/index.js:16 | `deleteUser` throws for a malformed or unknown uid or an outage, and otherwise removes exactly that uid |
| `VendorEraser.Backend.QueryProductsByVendor` | functions/index.js:25-29 | the snapshot is exactly the products whose `vendorId` is the uid, unless the query fails |
| `VendorEraser.Backend.Commit` | functions/index.js:36 | the batch applies wholly or, when the commit throws, not at all |
| `VendorEraser.Backend.DeleteVendorAndData` | functions/index.js:6-49 | the handler, run step by step (preflight, method check, principal deletion, vendor reference, batch built in a loop over the snapshot, commit), ends in the state and response that `Erase` gives |

## Left out

- Firebase SDK internals (`admin.auth()`, `admin.firestore()`, `batch()`, `getDocs`, `updateDoc`, `cors`) are abstract state. The atomicity of `batch.commit()` is an assumption about the store, written into `VendorEraser.Backend.Commit`, not something proved.
- `Documents.Collection.UpdateDoc`: the only failure modelled is a missing document. Network and permission errors of `updateDoc` are not modelled.
- `AdminLists.BulkDeactivate`: the state setters around the loop are not modelled (loading flag, toasts, the `fetchUsers`/`fetchVendors` refresh). Only the cleared or kept selection is.
- The fetch handlers' reads (`getDocs` of `users` and `vendors`) are not modelled; the fetched list is an input, and read failures only show a toast.
- The bulk delete over HTTP with `fetch` and `Promise.all` is left out, because it is concurrent network I/O. The same goes for the single deletes (`handleDeleteSingleUser` with `fetch`, `handleDeleteSingleVendor` with `httpsCallable`).
- Rendering is left out: JSX, toasts, spinners, `navigate`, `ReactPaginate`, the Tailwind configuration, and the locale- and clock-dependent date formatting of the vendor detail view.
- `Text.ToLowerCase`: lower-cases only the 26 ASCII capitals. JavaScript's Unicode case mapping is not modelled.
- Field values are strings or a boolean flag. Numbers, timestamps and other JSON values in documents and in `req.body.uid` are not modelled.
- `VendorEraser.Backend.DeleteUser`: Admin SDK failures other than a malformed uid, an unknown uid and an outage are folded into the outage parameter. The SDK's error message texts are represented by `ErrorKind` values.
- Sign-in, sign-out and the auth-state subscriptions are left out (src/pages/Login.jsx, src/Components/Logout.jsx, src/Hooks/useAuth.jsx, src/Components/AdminRules/adminrule.jsx). Their only logic, `claims.admin || false`, is the `isAdmin` input of `RouteGuard.PrivateRoute`.
- These files hold no logic to prove and are left out: functions/Makeadmin.js (a one-off claims script), the dashboard and unapproved-vendor count pages, the routing tables and the lint configuration.
- `deleteUserAndData`, batch chunking, batch size limits and a distinct inconsistent-state error are not part of this model: the shown code contains none of them.
- Logging (`console.log`, `console.error`) is left out.
- `VendorEraser.Erase`: a uid containing `/` is treated as refused by `collection("vendors").doc(uid)`. The Firestore SDK's own path rules are finer. It splits the joined path on `/`, drops leading and trailing slashes, and throws only for `//` or a path that does not name a document. So a uid like `a/b/c` names a document of a sub-collection, and the request goes through. A uid like `a/` names the `vendors` document `a`, which may be another vendor's. Those cases are not modelled.
- `VendorEraser.SuccessIff`: its "no `/` in the uid" condition is the model's. For the SDK, a slashed uid that names a document (`a/b/c`, `a/`) can also end in 200.
- `VendorEraser.LateFailureIsInconsistentButGeneric`: its slashed-uid case is the model's. For a slashed uid that names a document, the SDK goes on to the query and the commit. With `a/`, the commit deletes the `vendors` document `a`.
- The `cors` middleware is modelled only by its preflight answer. Its response headers and origin handling are not modelled.

## Findings

| source | as written | input that shows it | evidently intended | confidence | as-written member | corrected member |
|---|---|---|---|---|---|---|
| src/pages/ManageUsers.jsx:187-201 | `handleToggleActive(selectedUser)` writes `!user.isDeactivated` of the detail-view snapshot, and the snapshot is never refreshed. The vendor page does the same (src/pages/VendorApproval.jsx:196-208). | open an active user, click the toggle twice: the store holds "deactivated", the list shows "active" | each click flips the status, and store, list and detail view agree (proved in `AdminLists.SyncedToggleKeepsAgreement`) | not executed; high | `AdminLists.StaleSnapshotDiverges` | `AdminLists.ToggleClickSynced` |
| src/pages/ManageUsers.jsx:93-99 | the offset is taken modulo the number of all users and is not reset when the search term changes, but it slices the filtered list | 16 users; click page 2 (offset 15); search for a term only one user matches: no user is shown and page 2 stays listed | offset and page count over the filtered list, so that every match is shown on a listed page | not executed; medium | `ManageUsers.SearchOnSecondPageShowsNothing` | `ManageUsers.CorrectedCurrentItems` |
| src/pages/VendorApproval.jsx:99-104 | the same offset over all vendors, slicing the filtered vendors | 16 vendors; click page 2; search for a term only one vendor matches: no vendor is shown | offset and page count over the filtered list | not executed; medium | `VendorApproval.SearchOnSecondPageShowsNothing` | `VendorApproval.CorrectedCurrentItems` |
