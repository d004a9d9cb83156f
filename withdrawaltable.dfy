/** The withdrawal table: the visible page is a slice of the filtered list, and the rows
    the operator has checked form a selection set that is toggled row by row, filled or
    emptied from the header checkbox, dispatched to a bulk action and emptied afterwards,
    and emptied whenever the page or the page size changes. The selection is a JavaScript
    `Set`, which remembers insertion order; it is modelled as a sequence without repeats. */
module WithdrawalTable {
  import opened Withdrawals
  import JsArrays

  /** `(currentPage - 1) * itemsPerPage` */
  function PageStart(currentPage: int, itemsPerPage: int): int {
    (currentPage - 1) * itemsPerPage
  }

  /** `requests.slice(startIndex, startIndex + itemsPerPage)` */
  function PaginatedRequests(requests: seq<WithdrawalRequest>, currentPage: int, itemsPerPage: int)
    : seq<WithdrawalRequest>
  {
    var start := PageStart(currentPage, itemsPerPage);
    JsArrays.Slice(requests, start, start + itemsPerPage)
  }

  /** For a page number from 1 on, the page is the `itemsPerPage` requests from
      `(currentPage - 1) * itemsPerPage` on, cut to the list: at most `itemsPerPage` of
      them, consecutive and in list order. */
  lemma PageWindow(requests: seq<WithdrawalRequest>, currentPage: int, itemsPerPage: int)
    requires currentPage >= 1 && itemsPerPage >= 0
    ensures var page, start := PaginatedRequests(requests, currentPage, itemsPerPage), PageStart(currentPage, itemsPerPage);
      && |page| <= itemsPerPage
      && |page| == (if start >= |requests| then 0
                    else if start + itemsPerPage <= |requests| then itemsPerPage
                    else |requests| - start)
      && forall i :: 0 <= i < |page| ==> page[i] == requests[start + i]
  {
    var start := PageStart(currentPage, itemsPerPage);
    PageStartNonNegative(currentPage, itemsPerPage);
    var end := start + itemsPerPage;
    JsArrays.SliceWindow(requests, start, end);
    var lo := if start < |requests| then start else |requests|;
    var hi := if end < |requests| then end else |requests|;
    assert PaginatedRequests(requests, currentPage, itemsPerPage) == requests[lo..hi];
  }

  lemma PageStartNonNegative(currentPage: int, itemsPerPage: int)
    requires currentPage >= 1 && itemsPerPage >= 0
    ensures PageStart(currentPage, itemsPerPage) >= 0
  {
  }

  /** Consecutive pages do not overlap and leave no gap: page `p` followed by page `p + 1`
      is the stretch of the list from the start of page `p`, two pages long, cut to the list. */
  lemma PagesAreConsecutive(requests: seq<WithdrawalRequest>, currentPage: int, itemsPerPage: int)
    requires currentPage >= 1 && itemsPerPage >= 0
    ensures var start := PageStart(currentPage, itemsPerPage);
      var lo := if start < |requests| then start else |requests|;
      var hi := if start + 2 * itemsPerPage < |requests| then start + 2 * itemsPerPage else |requests|;
      PaginatedRequests(requests, currentPage, itemsPerPage) + PaginatedRequests(requests, currentPage + 1, itemsPerPage)
        == requests[lo..hi]
  {
    var start := PageStart(currentPage, itemsPerPage);
    assert PageStart(currentPage + 1, itemsPerPage) == start + itemsPerPage;
    PageWindow(requests, currentPage, itemsPerPage);
    PageWindow(requests, currentPage + 1, itemsPerPage);
  }

  /** The selection after a row checkbox is clicked: removed if it was in, added at the
      end if it was not. */
  function Toggled(selected: seq<string>, id: string): seq<string> {
    if id in selected then JsArrays.Filter(selected, (x: string) => x != id) else selected + [id]
  }

  /** Toggling changes the membership of that one id and of no other, keeps the selection
      free of repeats, and changes its size by one. */
  lemma ToggleFlipsOne(selected: seq<string>, id: string)
    requires JsArrays.Distinct(selected)
    ensures var t := Toggled(selected, id);
      && JsArrays.Distinct(t)
      && (id in t <==> id !in selected)
      && (forall x :: x != id ==> (x in t <==> x in selected))
      && |t| == if id in selected then |selected| - 1 else |selected| + 1
  {
    var t := Toggled(selected, id);
    var p := (x: string) => x != id;
    if id in selected {
      forall x ensures x in t <==> x in selected && x != id {
        JsArrays.FilterMembership(selected, p, x);
      }
      DistinctFilter(selected, p);
      JsArrays.FilterCounts(selected, p, id);
      DistinctRemoveOne(selected, id);
    }
  }

  lemma {:induction false} DistinctFilter(s: seq<string>, p: string -> bool)
    requires JsArrays.Distinct(s)
    ensures JsArrays.Distinct(JsArrays.Filter(s, p))
  {
    if s != [] {
      assert JsArrays.Distinct(s[1..]) by {
        forall i, j | 0 <= i < j < |s[1..]| ensures s[1..][i] != s[1..][j] {
          assert s[1..][i] == s[i + 1] && s[1..][j] == s[j + 1];
        }
      }
      DistinctFilter(s[1..], p);
      var rest := JsArrays.Filter(s[1..], p);
      if p(s[0]) {
        assert s[0] !in s[1..] by {
          forall k | 0 <= k < |s[1..]| ensures s[1..][k] != s[0] {
            assert s[1..][k] == s[k + 1];
          }
        }
        assert s[0] !in rest;
        var r := [s[0]] + rest;
        forall i, j | 0 <= i < j < |r| ensures r[i] != r[j] {
          if i == 0 { assert r[j] == rest[j - 1]; assert r[j] in rest; }
          else { assert r[i] == rest[i - 1] && r[j] == rest[j - 1]; }
        }
      }
    }
  }

  /** Removing one element from a repeat-free list shortens it by one. */
  lemma DistinctRemoveOne(s: seq<string>, id: string)
    requires JsArrays.Distinct(s) && id in s
    ensures |JsArrays.Filter(s, (x: string) => x != id)| == |s| - 1
  {
    var p := (x: string) => x != id;
    var r := JsArrays.Filter(s, p);
    assert multiset(s)[id] == 1 by {
      DistinctCount(s, id);
    }
    forall x ensures multiset(r)[x] == if x == id then 0 else multiset(s)[x] {
      JsArrays.FilterCounts(s, p, x);
    }
    assert multiset(r) == multiset(s) - multiset{id};
    assert |multiset(r)| == |multiset(s)| - 1;
  }

  lemma {:induction false} DistinctCount(s: seq<string>, id: string)
    requires JsArrays.Distinct(s) && id in s
    ensures multiset(s)[id] == 1
  {
    if s[0] == id {
      assert id !in s[1..] by {
        forall k | 0 <= k < |s[1..]| ensures s[1..][k] != id {
          assert s[1..][k] == s[k + 1];
        }
      }
      assert s == [s[0]] + s[1..];
    } else {
      assert JsArrays.Distinct(s[1..]) by {
        forall i, j | 0 <= i < j < |s[1..]| ensures s[1..][i] != s[1..][j] {
          assert s[1..][i] == s[i + 1] && s[1..][j] == s[j + 1];
        }
      }
      DistinctCount(s[1..], id);
      assert s == [s[0]] + s[1..];
    }
  }

  /** Toggling twice restores the selected set; toggling an id that was not selected
      twice restores the selection exactly, order included. */
  lemma ToggleTwice(selected: seq<string>, id: string)
    requires JsArrays.Distinct(selected)
    ensures forall x :: x in Toggled(Toggled(selected, id), id) <==> x in selected
    ensures id !in selected ==> Toggled(Toggled(selected, id), id) == selected
  {
    ToggleFlipsOne(selected, id);
    ToggleFlipsOne(Toggled(selected, id), id);
    if id !in selected {
      RemoveAbsent(selected, id);
    }
  }

  lemma {:induction false} RemoveAbsent(s: seq<string>, id: string)
    requires id !in s
    ensures JsArrays.Filter(s + [id], (x: string) => x != id) == s
  {
    if s == [] {
    } else {
      assert (s + [id])[1..] == s[1..] + [id];
      RemoveAbsent(s[1..], id);
    }
  }

  /** `new Set(s)` of a list without repeats is that list. */
  lemma DedupOfDistinct(s: seq<string>)
    requires JsArrays.Distinct(s)
    ensures JsArrays.Dedup(s) == s
  {
    DedupAfterDistinct([], s);
  }

  lemma {:induction false} DedupAfterDistinct(acc: seq<string>, s: seq<string>)
    requires JsArrays.Distinct(acc + s)
    ensures JsArrays.Distinct(acc) && JsArrays.DedupAfter(acc, s) == acc + s
    decreases |s|
  {
    assert JsArrays.Distinct(acc) by {
      forall i, j | 0 <= i < j < |acc| ensures acc[i] != acc[j] {
        assert acc[i] == (acc + s)[i] && acc[j] == (acc + s)[j];
      }
    }
    if s != [] {
      assert s[0] !in acc by {
        forall k | 0 <= k < |acc| ensures acc[k] != s[0] {
          assert acc[k] == (acc + s)[k] && s[0] == (acc + s)[|acc|];
        }
      }
      assert acc + s == (acc + [s[0]]) + s[1..];
      DedupAfterDistinct(acc + [s[0]], s[1..]);
    }
  }

  /** The header checkbox: `paginatedRequests.length > 0 && selectedRows.size === paginatedRequests.length`. */
  predicate HeaderChecked(page: seq<WithdrawalRequest>, selected: seq<string>) {
    |page| > 0 && |selected| == |page|
  }

  /** When every selected id is on the page and the page's ids (`ids`, its id column) are
      all different, the header is checked exactly when the page is non-empty and every
      row on it is selected. */
  lemma HeaderCheckedIffAllSelected(page: seq<WithdrawalRequest>, ids: seq<string>, selected: seq<string>)
    requires |ids| == |page| && forall i :: 0 <= i < |page| ==> ids[i] == page[i].id
    requires JsArrays.Distinct(selected) && JsArrays.Distinct(ids)
    requires forall x :: x in selected ==> x in ids
    ensures HeaderChecked(page, selected) <==> |page| > 0 && forall r :: r in page ==> r.id in selected
  {
    JsArrays.SameSizeSubset(selected, ids);
    if forall r :: r in page ==> r.id in selected {
      forall x | x in ids ensures x in selected {
        var i :| 0 <= i < |ids| && ids[i] == x;
        assert page[i] in page;
      }
    }
    if forall x :: x in ids ==> x in selected {
      forall r | r in page ensures r.id in selected {
        var i :| 0 <= i < |page| && page[i] == r;
        assert ids[i] == r.id;
      }
    }
  }

  /** The header compares sizes only: with a stale selection of as many ids as there are
      rows, it shows checked although no row on the page is selected. */
  lemma HeaderCheckedBySizeOnly(r: WithdrawalRequest)
    requires r.id == "a"
    ensures HeaderChecked([r], ["b"]) && r.id !in ["b"]
  {
  }

  /** Selecting all on a page whose ids are all different checks the header. */
  lemma SelectAllChecksHeader(page: seq<WithdrawalRequest>)
    requires page != [] && JsArrays.Distinct(Ids(page))
    ensures HeaderChecked(page, JsArrays.Dedup(Ids(page)))
  {
    DedupOfDistinct(Ids(page));
  }

  /** The table's own state and the props it renders with. */
  class TableState {
    var requests: seq<WithdrawalRequest>
    var currentPage: int
    var itemsPerPage: int
    var selectedRows: seq<string>

    ghost predicate Valid()
      reads this
    {
      JsArrays.Distinct(selectedRows)
    }

    function Page(): seq<WithdrawalRequest>
      reads this
    {
      PaginatedRequests(requests, currentPage, itemsPerPage)
    }

    /** Bulk actions are offered only while something is selected (`disabled`). */
    predicate BulkActionsDisabled()
      reads this
    {
      |selectedRows| == 0
    }

    /** The header checkbox: `selectedRows.size === paginatedRequests.length`, on a non-empty page. */
    predicate HeaderIsChecked()
      reads this
    {
      HeaderChecked(Page(), selectedRows)
    }

    /** Mounting starts from an empty selection. */
    constructor (requests: seq<WithdrawalRequest>, currentPage: int, itemsPerPage: int)
      ensures Valid() && selectedRows == []
      ensures this.requests == requests && this.currentPage == currentPage && this.itemsPerPage == itemsPerPage
    {
      this.requests, this.currentPage, this.itemsPerPage := requests, currentPage, itemsPerPage;
      selectedRows := [];
    }

    /** `handleSelectAll`: checked selects exactly the ids on the current page, unchecked
        selects nothing. */
    method HandleSelectAll(checked: bool)
      modifies this`selectedRows
      ensures Valid()
      ensures checked ==> selectedRows == JsArrays.Dedup(Ids(Page()))
      ensures checked ==> forall x :: x in selectedRows <==> exists r :: r in Page() && r.id == x
      ensures !checked ==> selectedRows == []
      ensures checked && Page() != [] && JsArrays.Distinct(Ids(Page())) ==> HeaderIsChecked()
      ensures !checked ==> !HeaderIsChecked()
    {
      if checked {
        selectedRows := JsArrays.Dedup(Ids(Page()));
        if Page() != [] && JsArrays.Distinct(Ids(Page())) {
          SelectAllChecksHeader(Page());
        }
        forall x ensures x in Ids(Page()) <==> exists r :: r in Page() && r.id == x {
          if x in Ids(Page()) {
            var i :| 0 <= i < |Ids(Page())| && Ids(Page())[i] == x;
            assert Page()[i] in Page();
          }
        }
      } else {
        selectedRows := [];
      }
    }

    /** `handleSelectRow(id)` */
    method HandleSelectRow(id: string)
      requires Valid()
      modifies this`selectedRows
      ensures Valid()
      ensures selectedRows == Toggled(old(selectedRows), id)
    {
      var newSelected := selectedRows;
      if id in newSelected {
        newSelected := JsArrays.Filter(newSelected, (x: string) => x != id);
      } else {
        newSelected := newSelected + [id];
      }
      ToggleFlipsOne(selectedRows, id);
      selectedRows := newSelected;
    }

    /** `handleBulkAction(action)`: hands the selection, in insertion order, to the console's
        bulk action and empties it. Only reachable while the buttons are enabled. */
    method HandleBulkAction(action: BulkAction) returns (dispatched: seq<string>)
      requires !BulkActionsDisabled()
      modifies this`selectedRows
      ensures dispatched == old(selectedRows) && dispatched != []
      ensures selectedRows == [] && Valid()
    {
      dispatched := selectedRows;
      selectedRows := [];
    }

    /** A re-render with new props; the reset effect runs when the page or the page size
        changed, and only then. */
    method Rerender(requests: seq<WithdrawalRequest>, currentPage: int, itemsPerPage: int)
      requires Valid()
      modifies this
      ensures Valid()
      ensures this.requests == requests && this.currentPage == currentPage && this.itemsPerPage == itemsPerPage
      ensures selectedRows ==
        if currentPage != old(this.currentPage) || itemsPerPage != old(this.itemsPerPage) then [] else old(selectedRows)
    {
      var pageChanged := currentPage != this.currentPage || itemsPerPage != this.itemsPerPage;
      this.requests, this.currentPage, this.itemsPerPage := requests, currentPage, itemsPerPage;
      if pageChanged {
        selectedRows := [];
      }
    }
  }
}
