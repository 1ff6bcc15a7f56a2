/**
 * The data logic of the "Manage Vendors" page: the search filter over shop
 * name and e-mail, the displayed page, the page-click offset and the save
 * handler for the seven editable vendor fields. The logic it shares with
 * the user page is in `AdminLists`.
 */
module VendorApproval {
  import opened Options
  import opened Documents
  import Paging
  import AdminLists

  const VendorsPerPage: nat := 15
  const SearchFields: seq<string> := ["shopName", "email"]
  const EditFields: seq<string> :=
    ["shopName", "email", "phoneNumber", "marketPlace", "marketPlaceType", "description", "complexName"]

  /** The vendors the search box keeps, in list order. */
  function FilteredVendors(vendors: seq<Doc>, term: string): (r: seq<Doc>)
    ensures forall v :: v in r <==>
              (v in vendors &&
               (term == "" ||
                AdminLists.FieldHit(v, "shopName", term) ||
                AdminLists.FieldHit(v, "email", term)))
    ensures term == "" ==> r == vendors
    ensures multiset(r) <= multiset(vendors)
  {
    AdminLists.SearchFilter(vendors, SearchFields, term)
  }

  /** The search keeps the list order: filtering two lists one after the other filters their concatenation. */
  lemma FilteredVendorsConcat(a: seq<Doc>, b: seq<Doc>, term: string)
    ensures FilteredVendors(a + b, term) == FilteredVendors(a, term) + FilteredVendors(b, term)
  {
    AdminLists.SearchFilterConcat(a, b, SearchFields, term);
  }

  /** The vendors shown: at most one page of the filtered list, read from the offset on. */
  function CurrentItems(vendors: seq<Doc>, term: string, offset: Paging.Offset): (r: seq<Doc>)
    ensures |r| <= VendorsPerPage
    ensures forall v :: v in r ==> v in FilteredVendors(vendors, term)
    ensures offset.At? && r != [] ==> offset.index + |r| <= |FilteredVendors(vendors, term)|
    ensures offset.At? ==> forall k :: 0 <= k < |r| ==> r[k] == FilteredVendors(vendors, term)[offset.index + k]
    ensures offset.NotANumber? ==> r == []
    ensures offset.At? && offset.index >= |FilteredVendors(vendors, term)| ==> r == []
    ensures offset.At? && offset.index < |FilteredVendors(vendors, term)| ==>
              |r| == Paging.Min(VendorsPerPage, |FilteredVendors(vendors, term)| - offset.index)
  {
    Paging.Page(FilteredVendors(vendors, term), offset, VendorsPerPage)
  }

  /** The page-click handler: the offset of page `selected`, taken modulo the length of the unfiltered list. */
  function HandlePageClick(selected: nat, vendors: seq<Doc>): (r: Paging.Offset)
    ensures |vendors| > 0 ==> r.At? && r.index < |vendors|
    ensures |vendors| == 0 ==> r == Paging.NotANumber
    ensures selected < Paging.PageCount(|vendors|, VendorsPerPage) ==> r == Paging.At(selected * VendorsPerPage)
  {
    if selected < Paging.PageCount(|vendors|, VendorsPerPage) then
      Paging.OffsetOfListedPage(selected, VendorsPerPage, |vendors|);
      Paging.PageOffset(selected, VendorsPerPage, |vendors|)
    else Paging.PageOffset(selected, VendorsPerPage, |vendors|)
  }

  /**
   * The save handler: with no vendor selected it reports an error and
   * writes nothing; otherwise it writes the seven vendor fields, `""` for a
   * missing one.
   */
  method HandleSaveChanges(store: Collection, selectedVendor: Option<Doc>) returns (result: AdminLists.SaveResult)
    requires store.Valid()
    modifies store
    ensures store.Valid()
    ensures selectedVendor.None? ==>
              result == AdminLists.NoneSelected && store.docs == old(store.docs) && store.writes == old(store.writes)
    ensures selectedVendor.Some? ==>
              var v := selectedVendor.value;
              (result == AdminLists.Saved <==> v.id in old(store.docs)) &&
              (result == AdminLists.Saved || result == AdminLists.WriteFailed) &&
              store.docs == (if result == AdminLists.Saved
                             then old(store.docs)[v.id := Patched(old(store.docs)[v.id], SetFields(AdminLists.SavePayload(v, EditFields)))]
                             else old(store.docs)) &&
              store.writes == (if result == AdminLists.Saved then old(store.writes) + [v.id] else old(store.writes))
  {
    if selectedVendor.None? {
      return AdminLists.NoneSelected;
    }
    var ok := AdminLists.SaveEdits(store, selectedVendor.value, EditFields);
    result := if ok then AdminLists.Saved else AdminLists.WriteFailed;
  }

  /**
   * As written: the offset is taken over all vendors, but the slice over the
   * filtered ones. With more than one page of vendors, clicking page 2 and
   * then searching for a term that at most one page of vendors match shows
   * no vendor at all, although page 2 is still listed.
   */
  lemma SearchOnSecondPageShowsNothing(vendors: seq<Doc>, term: string)
    requires 0 < |FilteredVendors(vendors, term)| <= VendorsPerPage < |vendors|
    ensures 1 < AdminLists.Summarize(vendors, VendorsPerPage).pageCount
    ensures HandlePageClick(1, vendors) == Paging.At(VendorsPerPage)
    ensures CurrentItems(vendors, term, HandlePageClick(1, vendors)) == []
  {
    Paging.SecondPageOfShortList(FilteredVendors(vendors, term), VendorsPerPage, |vendors|);
  }

  /** The corrected page: offset (and page count) taken over the filtered vendors that are sliced. */
  function CorrectedCurrentItems(vendors: seq<Doc>, term: string, selected: nat): (r: seq<Doc>)
    ensures |r| <= VendorsPerPage
    ensures forall v :: v in r ==> v in FilteredVendors(vendors, term)
  {
    var filtered := FilteredVendors(vendors, term);
    Paging.Page(filtered, Paging.PageOffset(selected, VendorsPerPage, |filtered|), VendorsPerPage)
  }

  /** With the corrected page, every matching vendor is shown on a listed page. */
  lemma CorrectedPagingShowsEveryMatch(vendors: seq<Doc>, term: string, i: nat)
    requires i < |FilteredVendors(vendors, term)|
    ensures i / VendorsPerPage < Paging.PageCount(|FilteredVendors(vendors, term)|, VendorsPerPage)
    ensures var page := CorrectedCurrentItems(vendors, term, i / VendorsPerPage);
            i % VendorsPerPage < |page| && page[i % VendorsPerPage] == FilteredVendors(vendors, term)[i]
  {
    Paging.EveryItemOnItsPage(FilteredVendors(vendors, term), VendorsPerPage, i);
  }
}
