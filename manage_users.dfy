/**
 * The data logic of the "Manage Users" page: the search filter over
 * display name, username and e-mail, the displayed page, the page-click
 * offset and the save handler for the four editable profile fields.
 * The logic it shares with the vendor page is in `AdminLists`.
 */
module ManageUsers {
  import opened Options
  import opened Documents
  import Paging
  import AdminLists

  const UsersPerPage: nat := 15
  const SearchFields: seq<string> := ["displayName", "username", "email"]
  const EditFields: seq<string> := ["displayName", "email", "phoneNumber", "birthday"]

  /** The users the search box keeps, in list order. */
  function FilteredUsers(users: seq<Doc>, term: string): (r: seq<Doc>)
    ensures forall u :: u in r <==>
              (u in users &&
               (term == "" ||
                AdminLists.FieldHit(u, "displayName", term) ||
                AdminLists.FieldHit(u, "username", term) ||
                AdminLists.FieldHit(u, "email", term)))
    ensures term == "" ==> r == users
    ensures multiset(r) <= multiset(users)
  {
    AdminLists.SearchFilter(users, SearchFields, term)
  }

  /** The search keeps the list order: filtering two lists one after the other filters their concatenation. */
  lemma FilteredUsersConcat(a: seq<Doc>, b: seq<Doc>, term: string)
    ensures FilteredUsers(a + b, term) == FilteredUsers(a, term) + FilteredUsers(b, term)
  {
    AdminLists.SearchFilterConcat(a, b, SearchFields, term);
  }

  /** The users shown: at most one page of the filtered list, read from the offset on. */
  function CurrentItems(users: seq<Doc>, term: string, offset: Paging.Offset): (r: seq<Doc>)
    ensures |r| <= UsersPerPage
    ensures forall u :: u in r ==> u in FilteredUsers(users, term)
    ensures offset.At? && r != [] ==> offset.index + |r| <= |FilteredUsers(users, term)|
    ensures offset.At? ==> forall k :: 0 <= k < |r| ==> r[k] == FilteredUsers(users, term)[offset.index + k]
    ensures offset.NotANumber? ==> r == []
    ensures offset.At? && offset.index >= |FilteredUsers(users, term)| ==> r == []
    ensures offset.At? && offset.index < |FilteredUsers(users, term)| ==>
              |r| == Paging.Min(UsersPerPage, |FilteredUsers(users, term)| - offset.index)
  {
    Paging.Page(FilteredUsers(users, term), offset, UsersPerPage)
  }

  /** The page-click handler: the offset of page `selected`, taken modulo the length of the unfiltered list. */
  function HandlePageClick(selected: nat, users: seq<Doc>): (r: Paging.Offset)
    ensures |users| > 0 ==> r.At? && r.index < |users|
    ensures |users| == 0 ==> r == Paging.NotANumber
    ensures selected < Paging.PageCount(|users|, UsersPerPage) ==> r == Paging.At(selected * UsersPerPage)
  {
    if selected < Paging.PageCount(|users|, UsersPerPage) then
      Paging.OffsetOfListedPage(selected, UsersPerPage, |users|);
      Paging.PageOffset(selected, UsersPerPage, |users|)
    else Paging.PageOffset(selected, UsersPerPage, |users|)
  }

  /**
   * The save handler: with no user selected it does nothing at all;
   * otherwise it writes the four profile fields, `""` for a missing one.
   */
  method HandleSaveChanges(store: Collection, selectedUser: Option<Doc>) returns (result: AdminLists.SaveResult)
    requires store.Valid()
    modifies store
    ensures store.Valid()
    ensures selectedUser.None? ==>
              result == AdminLists.Ignored && store.docs == old(store.docs) && store.writes == old(store.writes)
    ensures selectedUser.Some? ==>
              var u := selectedUser.value;
              (result == AdminLists.Saved <==> u.id in old(store.docs)) &&
              (result == AdminLists.Saved || result == AdminLists.WriteFailed) &&
              store.docs == (if result == AdminLists.Saved
                             then old(store.docs)[u.id := Patched(old(store.docs)[u.id], SetFields(AdminLists.SavePayload(u, EditFields)))]
                             else old(store.docs)) &&
              store.writes == (if result == AdminLists.Saved then old(store.writes) + [u.id] else old(store.writes))
  {
    if selectedUser.None? {
      return AdminLists.Ignored;
    }
    var ok := AdminLists.SaveEdits(store, selectedUser.value, EditFields);
    result := if ok then AdminLists.Saved else AdminLists.WriteFailed;
  }

  /**
   * As written: the offset is taken over all users, but the slice over the
   * filtered ones. With more than one page of users, clicking page 2 and
   * then searching for a term that at most one page of users match shows
   * no user at all, although page 2 is still listed.
   */
  lemma SearchOnSecondPageShowsNothing(users: seq<Doc>, term: string)
    requires 0 < |FilteredUsers(users, term)| <= UsersPerPage < |users|
    ensures 1 < AdminLists.Summarize(users, UsersPerPage).pageCount
    ensures HandlePageClick(1, users) == Paging.At(UsersPerPage)
    ensures CurrentItems(users, term, HandlePageClick(1, users)) == []
  {
    Paging.SecondPageOfShortList(FilteredUsers(users, term), UsersPerPage, |users|);
  }

  /** The corrected page: offset (and page count) taken over the filtered users that are sliced. */
  function CorrectedCurrentItems(users: seq<Doc>, term: string, selected: nat): (r: seq<Doc>)
    ensures |r| <= UsersPerPage
    ensures forall u :: u in r ==> u in FilteredUsers(users, term)
  {
    var filtered := FilteredUsers(users, term);
    Paging.Page(filtered, Paging.PageOffset(selected, UsersPerPage, |filtered|), UsersPerPage)
  }

  /** With the corrected page, every matching user is shown on a listed page. */
  lemma CorrectedPagingShowsEveryMatch(users: seq<Doc>, term: string, i: nat)
    requires i < |FilteredUsers(users, term)|
    ensures i / UsersPerPage < Paging.PageCount(|FilteredUsers(users, term)|, UsersPerPage)
    ensures var page := CorrectedCurrentItems(users, term, i / UsersPerPage);
            i % UsersPerPage < |page| && page[i % UsersPerPage] == FilteredUsers(users, term)[i]
  {
    Paging.EveryItemOnItsPage(FilteredUsers(users, term), UsersPerPage, i);
  }
}
