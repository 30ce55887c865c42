/** The doctor's lab-work list (`src/app/dashboard/pages/Doctor/labWork/page.tsx`):
    filtering by patient name and status, the pages of cards and the page
    buttons. */
module LabWorkPage {

  import opened Wrappers
  import Text
  import Lists
  import Pagination

  /** The part of a lab-work card the list filters on; a card whose patient
      has no name has `None`. */
  datatype Card = Card(id: string, patientName: Option<string>, status: string)

  const AllStatuses := "All"

  /** The list's controls. */
  datatype Controls = Controls(search: string, statusFilter: string, page: int, itemsPerPage: nat)

  const InitialControls := Controls("", AllStatuses, 1, 6)

  /** A card is listed when its patient's name contains the search term,
      ignoring case, and the status filter is "All" or its status. */
  predicate Listed(c: Card, search: string, statusFilter: string) {
    && c.patientName.Some?
    && Text.ContainsIgnoringCase(c.patientName.value, search)
    && (statusFilter == AllStatuses || c.status == statusFilter)
  }

  /** `filteredData`. */
  function Filtered(cards: seq<Card>, ctl: Controls): (r: seq<Card>)
    ensures forall c :: c in r <==> c in cards && Listed(c, ctl.search, ctl.statusFilter)
    ensures Lists.IsSubsequence(r, cards)
    ensures |r| <= |cards|
  {
    Lists.Filter(cards, (c: Card) => Listed(c, ctl.search, ctl.statusFilter))
  }

  /** With no search text and "All", exactly the named cards are listed, in order. */
  lemma NoFilterKeepsNamed(cards: seq<Card>, ctl: Controls)
    requires ctl.search == "" && ctl.statusFilter == AllStatuses
    requires forall i :: 0 <= i < |cards| ==> cards[i].patientName.Some?
    ensures Filtered(cards, ctl) == cards
  {
    forall i | 0 <= i < |cards| ensures Listed(cards[i], "", AllStatuses) {
      Text.EmptyIsContainedIgnoringCase(cards[i].patientName.value);
    }
  }

  function TotalPages(cards: seq<Card>, ctl: Controls): (n: nat)
    requires ctl.itemsPerPage >= 1
    ensures var m := |Filtered(cards, ctl)|;
      (n - 1) * ctl.itemsPerPage < m <= n * ctl.itemsPerPage || (m == 0 && n == 0)
  {
    Pagination.TotalPages(|Filtered(cards, ctl)|, ctl.itemsPerPage)
  }

  /** `currentItems`: the cards of the current page. */
  function CurrentItems(cards: seq<Card>, ctl: Controls): (r: seq<Card>)
    requires ctl.itemsPerPage >= 1
    ensures |r| <= ctl.itemsPerPage
    ensures forall c :: c in r ==> c in cards && Listed(c, ctl.search, ctl.statusFilter)
    ensures 1 <= ctl.page <= TotalPages(cards, ctl) ==> r != []
  {
    var f := Filtered(cards, ctl);
    Pagination.PageMembers(f, ctl.page, ctl.itemsPerPage);
    Pagination.PageItems(f, ctl.page, ctl.itemsPerPage)
  }

  /** Every listed card is on exactly the page its position says. */
  lemma ListedCardHasPage(cards: seq<Card>, ctl: Controls, i: nat)
    requires ctl.itemsPerPage >= 1 && i < |Filtered(cards, ctl)|
    ensures var p := i / ctl.itemsPerPage + 1;
      var shown := CurrentItems(cards, ctl.(page := p));
      1 <= p <= TotalPages(cards, ctl) && i % ctl.itemsPerPage < |shown| && shown[i % ctl.itemsPerPage] == Filtered(cards, ctl)[i]
  {
    var k := ctl.itemsPerPage;
    var p := i / k + 1;
    assert Filtered(cards, ctl.(page := p)) == Filtered(cards, ctl);
    Pagination.RowPage(Filtered(cards, ctl), k, i);
  }

  /** `goToPage`: pages outside `[1, totalPages]` are ignored. */
  function GoToPage(cards: seq<Card>, ctl: Controls, page: int): (r: Controls)
    requires ctl.itemsPerPage >= 1
    ensures 1 <= page <= TotalPages(cards, ctl) ==> r == ctl.(page := page)
    ensures !(1 <= page <= TotalPages(cards, ctl)) ==> r == ctl
  {
    ctl.(page := Pagination.GoToPage(ctl.page, page, TotalPages(cards, ctl)))
  }

  /** `getPageNumbers`. */
  function PageNumbers(cards: seq<Card>, ctl: Controls): (r: seq<int>)
    requires ctl.itemsPerPage >= 1
    ensures |r| <= 5
    ensures forall i :: 0 <= i < |r| ==> 1 <= r[i] <= TotalPages(cards, ctl)
    ensures forall i :: 0 < i < |r| ==> r[i] == r[i - 1] + 1
    ensures TotalPages(cards, ctl) == 0 <==> r == []
    ensures 1 <= ctl.page <= TotalPages(cards, ctl) ==> ctl.page in r
    ensures TotalPages(cards, ctl) >= 5 ==> |r| == 5
  {
    Pagination.PageWindow(ctl.page, TotalPages(cards, ctl))
  }

  /** A changed search term returns to page 1. */
  function SetSearch(ctl: Controls, search: string): (r: Controls)
    ensures r.search == search && r.statusFilter == ctl.statusFilter && r.itemsPerPage == ctl.itemsPerPage
    ensures search != ctl.search ==> r.page == 1
    ensures search == ctl.search ==> r == ctl
  {
    if search != ctl.search then ctl.(search := search, page := 1) else ctl
  }

  /** A changed status filter returns to page 1. */
  function SetStatusFilter(ctl: Controls, status: string): (r: Controls)
    ensures r.statusFilter == status && r.search == ctl.search && r.itemsPerPage == ctl.itemsPerPage
    ensures status != ctl.statusFilter ==> r.page == 1
    ensures status == ctl.statusFilter ==> r == ctl
  {
    if status != ctl.statusFilter then ctl.(statusFilter := status, page := 1) else ctl
  }

  /** Choosing a page size always returns to page 1. */
  function SetItemsPerPage(ctl: Controls, k: nat): (r: Controls)
    ensures r.itemsPerPage == k && r.page == 1
    ensures r.search == ctl.search && r.statusFilter == ctl.statusFilter
  {
    ctl.(itemsPerPage := k, page := 1)
  }

  /** After a new search term the first page is shown, and it is
      non-empty whenever some card is listed. */
  lemma ResetShowsFirstPage(cards: seq<Card>, ctl: Controls, search: string)
    requires ctl.itemsPerPage >= 1 && search != ctl.search
    ensures var r := SetSearch(ctl, search);
      Filtered(cards, r) != [] ==> CurrentItems(cards, r) != [] && CurrentItems(cards, r)[0] == Filtered(cards, r)[0]
  {
    var r := SetSearch(ctl, search);
    if Filtered(cards, r) != [] {
      ListedCardHasPage(cards, r, 0);
      assert 0 / r.itemsPerPage + 1 == 1;
      assert r.(page := 1) == r;
    }
  }
}
