/**
 * The list logic the two admin pages (users and vendors) share line for
 * line: search filtering, the summary counts, checkbox selection, the
 * activate/deactivate toggle, bulk deactivation and the save payload.
 */
module AdminLists {
  import opened Options
  import opened Documents
  import Text
  import Seqs
  import Paging

  // ---------------------------------------------------------------- search

  /**
   * The search test of the filter effect: an empty term keeps everything;
   * otherwise some searched field is present and, lower-cased, includes the
   * lower-cased term.
   */
  predicate MatchesSearch(d: Doc, names: seq<string>, term: string)
  {
    term == "" || exists n :: n in names && FieldHit(d, n, term)
  }

  /** `d[n] && d[n].toLowerCase().includes(term.toLowerCase())`. */
  predicate FieldHit(d: Doc, n: string, term: string)
  {
    n in d.fields && Text.Includes(Text.ToLowerCase(d.fields[n]), Text.ToLowerCase(term))
  }

  /** `list.filter(d => MatchesSearch(d, names, term))`. */
  function SearchFilter(docs: seq<Doc>, names: seq<string>, term: string): (r: seq<Doc>)
    ensures forall d :: d in r <==> d in docs && MatchesSearch(d, names, term)
    ensures term == "" ==> r == docs
    ensures |r| <= |docs|
    ensures multiset(r) <= multiset(docs)
  {
    var keep := d => MatchesSearch(d, names, term);
    if term == "" then Seqs.FilterKeepsAll(docs, keep); Seqs.Filter(docs, keep)
    else Seqs.Filter(docs, keep)
  }

  /** The search keeps the list order: it distributes over concatenation. */
  lemma SearchFilterConcat(a: seq<Doc>, b: seq<Doc>, names: seq<string>, term: string)
    ensures SearchFilter(a + b, names, term) == SearchFilter(a, names, term) + SearchFilter(b, names, term)
  {
    Seqs.FilterConcat(a, b, d => MatchesSearch(d, names, term));
  }

  /** The search does not see letter case, neither in the term nor in the fields. */
  lemma SearchIgnoresCase(d: Doc, e: Doc, names: seq<string>, t1: string, t2: string)
    requires Text.ToLowerCase(t1) == Text.ToLowerCase(t2)
    requires forall n :: n in names ==> (n in d.fields <==> n in e.fields)
    requires forall n :: n in names && n in d.fields ==>
               Text.ToLowerCase(d.fields[n]) == Text.ToLowerCase(e.fields[n])
    ensures MatchesSearch(d, names, t1) == MatchesSearch(e, names, t2)
  {
  }

  /** A search term that some searched field contains verbatim keeps the document. */
  lemma FieldContainingTermMatches(d: Doc, names: seq<string>, term: string, n: string, pre: string, post: string)
    requires n in names && n in d.fields
    requires d.fields[n] == pre + term + post
    ensures MatchesSearch(d, names, term)
  {
    assert FieldHit(d, n, term) by {
      var lower := Text.ToLowerCase(d.fields[n]);
      assert lower == Text.ToLowerCase(pre) + Text.ToLowerCase(term) + Text.ToLowerCase(post);
      Text.IncludesInfix(Text.ToLowerCase(pre), Text.ToLowerCase(term), Text.ToLowerCase(post));
    }
  }

  // ---------------------------------------------------------------- counts

  /** What the fetch handler stores besides the list itself. */
  datatype Summary = Summary(total: nat, activated: nat, deactivated: nat, pageCount: nat)

  /**
   * `list.length`, the number of documents whose flag is falsy and truthy,
   * and `Math.ceil(list.length / size)`.
   */
  function Summarize(docs: seq<Doc>, size: nat): (r: Summary)
    requires size > 0
    ensures r.total == |docs|
    ensures r.activated + r.deactivated == r.total
    ensures r.pageCount * size >= r.total
    ensures r.total > 0 ==> (r.pageCount - 1) * size < r.total
  {
    Seqs.FilterSplitCount(docs, IsActive, IsDeactivated);
    Summary(|docs|, |Seqs.Filter(docs, IsActive)|, |Seqs.Filter(docs, IsDeactivated)|,
            Paging.PageCount(|docs|, size))
  }

  /**
   * What each count counts: the empty list has none of either, and one more
   * document adds one to the deactivated count when its flag is truthy and
   * one to the activated count otherwise.
   */
  lemma SummarizeAppend(docs: seq<Doc>, d: Doc, size: nat)
    requires size > 0
    ensures Summarize([], size).activated == 0 && Summarize([], size).deactivated == 0
    ensures Summarize(docs + [d], size).deactivated ==
              Summarize(docs, size).deactivated + (if IsDeactivated(d) then 1 else 0)
    ensures Summarize(docs + [d], size).activated ==
              Summarize(docs, size).activated + (if IsDeactivated(d) then 0 else 1)
  {
    Seqs.FilterConcat(docs, [d], IsActive);
    Seqs.FilterConcat(docs, [d], IsDeactivated);
    assert [d][1..] == [];
  }

  // ------------------------------------------------------------- selection

  /** The checkbox handler: drop every occurrence of a selected id, or append an unselected one. */
  function ToggleSelection(selected: seq<string>, id: string): (r: seq<string>)
    ensures id in selected ==> id !in r && |r| < |selected|
    ensures id in selected ==> r == Seqs.Filter(selected, x => x != id)
    ensures id !in selected ==> r == selected + [id]
    ensures forall x :: x != id ==> (x in r <==> x in selected)
  {
    if id in selected then
      Seqs.FilterDropsSome(selected, x => x != id, id);
      Seqs.Filter(selected, x => x != id)
    else selected + [id]
  }

  /** Ticking an unticked box and unticking it again restores the selection exactly. */
  lemma ToggleSelectionTwice(selected: seq<string>, id: string)
    requires id !in selected
    ensures ToggleSelection(ToggleSelection(selected, id), id) == selected
  {
    var keep := x => x != id;
    Seqs.FilterConcat(selected, [id], keep);
    Seqs.FilterKeepsAll(selected, keep);
  }

  /** Toggling keeps a duplicate-free selection duplicate-free, so a selection built by clicks from the empty one never repeats an id. */
  lemma ToggleSelectionNoDuplicates(selected: seq<string>, id: string)
    requires Seqs.NoDuplicates(selected)
    ensures Seqs.NoDuplicates(ToggleSelection(selected, id))
  {
    if id in selected {
      Seqs.FilterNoDuplicates(selected, x => x != id);
    }
  }

  // ---------------------------------------------------------- toggle active

  /** `{ ...d, isDeactivated: !d.isDeactivated }`. */
  function Flip(d: Doc): Doc
  {
    d.(isDeactivated := Some(!Truthy(d.isDeactivated)))
  }

  /** The local list update after a successful toggle: flip the records with that id. */
  function ToggleActive(list: seq<Doc>, id: string): (r: seq<Doc>)
    ensures |r| == |list|
    ensures forall i :: 0 <= i < |list| ==> r[i].id == list[i].id && r[i].fields == list[i].fields
    ensures forall i :: 0 <= i < |list| && list[i].id != id ==> r[i] == list[i]
    ensures forall i :: 0 <= i < |list| && list[i].id == id ==>
              r[i].isDeactivated.Some? && IsDeactivated(r[i]) == !IsDeactivated(list[i])
  {
    seq(|list|, i requires 0 <= i < |list| => if list[i].id == id then Flip(list[i]) else list[i])
  }

  /**
   * Toggling twice restores every record's status, and restores the list
   * exactly when the toggled records had the flag set (a missing flag comes
   * back as an explicit `false`).
   */
  lemma ToggleActiveTwice(list: seq<Doc>, id: string)
    ensures var r := ToggleActive(ToggleActive(list, id), id);
            |r| == |list| && forall i :: 0 <= i < |list| ==> IsDeactivated(r[i]) == IsDeactivated(list[i])
    ensures (forall i :: 0 <= i < |list| && list[i].id == id ==> list[i].isDeactivated.Some?) ==>
              ToggleActive(ToggleActive(list, id), id) == list
  {
    var t := ToggleActive(list, id);
    var r := ToggleActive(t, id);
    if forall i :: 0 <= i < |list| && list[i].id == id ==> list[i].isDeactivated.Some? {
      forall i | 0 <= i < |list| ensures r[i] == list[i] {
        if list[i].id == id {
          assert t[i] == Flip(list[i]);
          assert r[i] == Flip(t[i]);
          var b := list[i].isDeactivated.value;
          assert list[i].isDeactivated == Some(b);
        } else {
          assert t[i] == list[i];
        }
      }
      assert r == list;
    }
  }

  /**
   * The stored data and the page's whole fetched list (the `users` or
   * `vendors` state that the toggle maps over), not only the displayed page.
   */
  datatype ListState = ListState(stored: map<string, Doc>, shown: seq<Doc>)

  /**
   * One click on the toggle button of the record `clicked` (the detail
   * view's snapshot): write the negation of the snapshot's flag, then, if the
   * write succeeded, flip the shown copies.
   */
  function ToggleClick(s: ListState, clicked: Doc): (r: ListState)
    ensures clicked.id !in s.stored ==> r == s
    ensures r.stored.Keys == s.stored.Keys
    ensures clicked.id in s.stored ==>
              r.stored[clicked.id] == s.stored[clicked.id].(isDeactivated := Some(!IsDeactivated(clicked))) &&
              r.shown == ToggleActive(s.shown, clicked.id)
    ensures forall k :: k in s.stored && k != clicked.id ==> r.stored[k] == s.stored[k]
  {
    if clicked.id in s.stored then
      ListState(s.stored[clicked.id := Patched(s.stored[clicked.id], SetDeactivated(!Truthy(clicked.isDeactivated)))],
                ToggleActive(s.shown, clicked.id))
    else s
  }

  /**
   * The toggle handler: one `updateDoc` of the flag, and the local list
   * flipped only when the write succeeded.
   */
  method HandleToggleActive(store: Collection, shown: seq<Doc>, clicked: Doc) returns (ok: bool, shownAfter: seq<Doc>)
    requires store.Valid()
    modifies store
    ensures store.Valid()
    ensures ok <==> clicked.id in old(store.docs)
    ensures ListState(store.docs, shownAfter) == ToggleClick(ListState(old(store.docs), shown), clicked)
    ensures store.writes == if ok then old(store.writes) + [clicked.id] else old(store.writes)
  {
    ok := store.UpdateDoc(clicked.id, SetDeactivated(!Truthy(clicked.isDeactivated)));
    shownAfter := if ok then ToggleActive(shown, clicked.id) else shown;
  }

  /**
   * As written, the detail view keeps the snapshot taken when the row was
   * opened, so a second click writes the same flag again while the list
   * flips back: the store says deactivated, the list says active.
   */
  lemma StaleSnapshotDiverges()
    ensures var u := Doc("u", map[], Some(false));
            var s := ToggleClick(ToggleClick(ListState(map["u" := u], [u]), u), u);
            "u" in s.stored && |s.shown| == 1 &&
            IsDeactivated(s.stored["u"]) && !IsDeactivated(s.shown[0])
  {
    var u := Doc("u", map[], Some(false));
    var s1 := ToggleClick(ListState(map["u" := u], [u]), u);
    assert s1.stored["u"] == u.(isDeactivated := Some(true));
    assert s1.shown[0] == Flip(u);
    var s2 := ToggleClick(s1, u);
    assert s2.stored["u"] == u.(isDeactivated := Some(true));
    assert s2.shown[0] == Flip(Flip(u));
  }

  /** The page with its detail-view snapshot. */
  datatype DetailState = DetailState(stored: map<string, Doc>, shown: seq<Doc>, selected: Doc)

  /** The snapshot, the stored document and every shown copy agree on the status. */
  predicate InAgreement(s: DetailState)
  {
    s.selected.id in s.stored &&
    IsDeactivated(s.stored[s.selected.id]) == IsDeactivated(s.selected) &&
    forall i :: 0 <= i < |s.shown| && s.shown[i].id == s.selected.id ==>
      IsDeactivated(s.shown[i]) == IsDeactivated(s.selected)
  }

  /** The corrected click: the same write and list update, and the snapshot flipped with them. */
  function ToggleClickSynced(s: DetailState): DetailState
  {
    var t := ToggleClick(ListState(s.stored, s.shown), s.selected);
    if s.selected.id in s.stored then DetailState(t.stored, t.shown, Flip(s.selected)) else s
  }

  /** With the snapshot kept in step, every click flips the stored status and keeps all copies in agreement. */
  lemma SyncedToggleKeepsAgreement(s: DetailState)
    requires InAgreement(s)
    ensures var t := ToggleClickSynced(s);
            InAgreement(t) && t.selected.id == s.selected.id &&
            IsDeactivated(t.stored[s.selected.id]) == !IsDeactivated(s.stored[s.selected.id])
  {
    var t := ToggleClickSynced(s);
    var id := s.selected.id;
    forall i | 0 <= i < |t.shown| && t.shown[i].id == id
      ensures IsDeactivated(t.shown[i]) == IsDeactivated(t.selected)
    {
      assert s.shown[i].id == id;
    }
  }

  // ------------------------------------------------------- bulk deactivate

  /** The documents after `isDeactivated: true` was written to each id of `ids`, in order. */
  function DeactivateAll(docs: map<string, Doc>, ids: seq<string>): map<string, Doc>
  {
    if ids == [] then docs
    else
      var before := DeactivateAll(docs, ids[..|ids| - 1]);
      var id := ids[|ids| - 1];
      if id in before then before[id := Patched(before[id], SetDeactivated(true))] else before
  }

  /** Exactly the listed documents end up deactivated; nothing else changes. */
  lemma {:induction false} DeactivateAllEffect(docs: map<string, Doc>, ids: seq<string>)
    ensures var r := DeactivateAll(docs, ids);
            r.Keys == docs.Keys &&
            (forall k :: k in docs && k in ids ==> r[k] == docs[k].(isDeactivated := Some(true))) &&
            (forall k :: k in docs && k !in ids ==> r[k] == docs[k])
  {
    if ids != [] {
      var init := ids[..|ids| - 1];
      DeactivateAllEffect(docs, init);
      assert ids == init + [ids[|ids| - 1]];
    }
  }

  /** The index of the first id that has no document, or the length when all have one. */
  function FirstMissing(docs: map<string, Doc>, ids: seq<string>): (r: nat)
    ensures r <= |ids|
    ensures forall i :: 0 <= i < r ==> ids[i] in docs
    ensures r < |ids| ==> ids[r] !in docs
  {
    if ids == [] || ids[0] !in docs then 0 else 1 + FirstMissing(docs, ids[1..])
  }

  /** How a save handler ended: written, the write threw, or there was no record selected (silently ignored, or reported). */
  datatype SaveResult = Saved | WriteFailed | Ignored | NoneSelected

  datatype BulkResult = NothingSelected | AllDeactivated | StoppedAt(id: string)

  /**
   * The bulk-deactivate handler: an empty selection is rejected; otherwise
   * the ids are written one after another and the loop stops at the first
   * write that throws, keeping the earlier writes. The selection is cleared
   * only when every write succeeded.
   */
  method BulkDeactivate(store: Collection, selected: seq<string>) returns (result: BulkResult, selectedAfter: seq<string>)
    requires store.Valid()
    modifies store
    ensures store.Valid()
    ensures selected == [] ==>
              result == NothingSelected && selectedAfter == [] &&
              store.docs == old(store.docs) && store.writes == old(store.writes)
    ensures selected != [] ==>
              var k := FirstMissing(old(store.docs), selected);
              store.docs == DeactivateAll(old(store.docs), selected[..k]) &&
              store.writes == old(store.writes) + selected[..k] &&
              (k == |selected| ==> result == AllDeactivated && selectedAfter == []) &&
              (k < |selected| ==> result == StoppedAt(selected[k]) && selectedAfter == selected)
  {
    if selected == [] {
      return NothingSelected, selected;
    }
    ghost var docs0 := store.docs;
    var i := 0;
    while i < |selected|
      invariant 0 <= i <= |selected|
      invariant store.Valid()
      invariant forall j :: 0 <= j < i ==> selected[j] in docs0
      invariant store.docs == DeactivateAll(docs0, selected[..i])
      invariant store.writes == old(store.writes) + selected[..i]
    {
      DeactivateAllEffect(docs0, selected[..i]);
      var ok := store.UpdateDoc(selected[i], SetDeactivated(true));
      if !ok {
        return StoppedAt(selected[i]), selected;
      }
      assert selected[..i + 1] == selected[..i] + [selected[i]];
      assert selected[..i + 1][..i] == selected[..i];
      i := i + 1;
    }
    assert selected[..i] == selected;
    return AllDeactivated, [];
  }

  // ------------------------------------------------------------ save edits

  /** The `updateDoc` payload of the save handler: each edited field, with `""` for a missing one. */
  function SavePayload(edited: Doc, names: seq<string>): (r: map<string, string>)
    ensures r.Keys == set n | n in names
    ensures forall n :: n in r && n in edited.fields ==> r[n] == edited.fields[n]
    ensures forall n :: n in r && n !in edited.fields ==> r[n] == ""
  {
    map n | n in names :: FieldOr(edited, n)
  }

  /**
   * After a save, every edited field is present in the stored document with
   * the edited value (or `""`), the fields not edited keep their values, and
   * nothing else of the document changes.
   */
  lemma SaveWritesEveryField(stored: Doc, edited: Doc, names: seq<string>)
    ensures var r := Patched(stored, SetFields(SavePayload(edited, names)));
            r.id == stored.id && r.isDeactivated == stored.isDeactivated &&
            (forall n :: n in names ==> n in r.fields && r.fields[n] == FieldOr(edited, n)) &&
            (forall n :: n in stored.fields && n !in names ==> n in r.fields && r.fields[n] == stored.fields[n])
  {
  }

  /** Saving the saved document again writes the same payload and changes nothing. */
  lemma SaveIdempotent(stored: Doc, edited: Doc, names: seq<string>)
    ensures var once := Patched(stored, SetFields(SavePayload(edited, names)));
            SavePayload(once, names) == SavePayload(edited, names) &&
            Patched(once, SetFields(SavePayload(once, names))) == once
  {
    var once := Patched(stored, SetFields(SavePayload(edited, names)));
    assert once.fields + SavePayload(once, names) == once.fields;
  }

  /** The shared part of both save handlers: one `updateDoc` of the payload. */
  method SaveEdits(store: Collection, edited: Doc, names: seq<string>) returns (ok: bool)
    requires store.Valid()
    modifies store
    ensures store.Valid()
    ensures ok <==> edited.id in old(store.docs)
    ensures store.docs == if ok then old(store.docs)[edited.id := Patched(old(store.docs)[edited.id], SetFields(SavePayload(edited, names)))]
                          else old(store.docs)
    ensures store.writes == if ok then old(store.writes) + [edited.id] else old(store.writes)
  {
    ok := store.UpdateDoc(edited.id, SetFields(SavePayload(edited, names)));
  }
}
