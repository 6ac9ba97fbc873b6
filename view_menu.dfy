// The paginated embed menu: a list of pages and a cursor that the
// next/previous buttons move with wrap-around.

module ViewMenu {
  import opened Wrappers

  /**
   * Python list indexing on a list of length `n`: an index in [0, n) is used
   * as is, one in [-n, 0) counts from the end, anything else raises
   * IndexError (`None`). The position reached is `i` modulo `n`.
   */
  function PyIndex(n: nat, i: int): (r: Option<nat>)
    ensures r.Some? <==> -(n as int) <= i < n
    ensures r.Some? ==> r.value < n && r.value == i % n
  {
    if 0 <= i < n then Some(i)
    else if -(n as int) <= i < 0 then Some(n + i)
    else None
  }

  /** `s[i]` with Python's indexing rules. */
  function PyGet<T>(s: seq<T>, i: int): (r: Option<T>)
    ensures r.Some? <==> -|s| <= i < |s|
    ensures r.Some? ==> r.value == s[i % |s|]
  {
    match PyIndex(|s|, i)
    case None => None
    case Some(k) => Some(s[k])
  }

  /** The cursor after `next_page`: one step forward, back to 0 past the last page. */
  function NextIndex(cur: int, n: nat): (r: int)
    ensures 0 <= cur < n ==> r == (cur + 1) % n
  {
    if cur + 1 >= n then 0 else cur + 1
  }

  /** The cursor after `previous_page`: one step back, on to the last page before page 0. */
  function PreviousIndex(cur: int, n: nat): (r: int)
    ensures 0 <= cur < n ==> r == (cur - 1) % n
    ensures cur <= 0 ==> r == n - 1
  {
    if cur - 1 < 0 then n - 1 else cur - 1
  }

  /** Next then previous, or previous then next, puts an in-range cursor back where it was. */
  lemma NextPreviousInverse(cur: int, n: nat)
    requires 0 <= cur < n
    ensures PreviousIndex(NextIndex(cur, n), n) == cur
    ensures NextIndex(PreviousIndex(cur, n), n) == cur
  {
  }

  /** A button press that moves the cursor. */
  datatype Move = Next | Previous

  /** The cursor after a sequence of button presses on a menu of `n` pages. */
  function Walk(cur: int, n: nat, moves: seq<Move>): int
    decreases |moves|
  {
    if moves == [] then cur
    else Walk(if moves[0] == Next then NextIndex(cur, n) else PreviousIndex(cur, n), n, moves[1..])
  }

  /** With at least one page, any sequence of presses keeps an in-range cursor in range. */
  lemma {:induction false} WalkStaysInRange(cur: int, n: nat, moves: seq<Move>)
    requires 0 <= cur < n
    ensures 0 <= Walk(cur, n, moves) < n
    decreases |moves|
  {
    if moves != [] {
      WalkStaysInRange(if moves[0] == Next then NextIndex(cur, n) else PreviousIndex(cur, n), n, moves[1..]);
    }
  }

  /** What a button shows: the menu message edited to a page, or a new message sent with a page. */
  datatype Display<Page> = Edit(page: Page) | Send(page: Page)

  /** The menu's state: the pages and the current page index, which `go_to_page` may set to anything. */
  class Menu<Page> {
    var pages: seq<Page>
    var currentPage: int

    /** A fresh menu has no pages and its cursor at 0. */
    constructor ()
      ensures pages == [] && currentPage == 0
    {
      pages := [];
      currentPage := 0;
    }

    /** `add_pages`: the new pages go after the existing ones, in order. */
    method AddPages(more: seq<Page>)
      modifies this
      ensures pages == old(pages) + more && currentPage == old(currentPage)
    {
      pages := pages + more;
    }

    /**
     * `next_page`: move the cursor, then edit the menu to the page under it.
     * `None` is the IndexError an empty menu raises after the cursor moved.
     */
    method NextPage() returns (r: Option<Display<Page>>)
      modifies this
      ensures pages == old(pages) && currentPage == NextIndex(old(currentPage), |pages|)
      ensures r.Some? <==> -|pages| <= currentPage < |pages|
      ensures r.Some? ==> r.value == Edit(pages[currentPage % |pages|])
    {
      if currentPage + 1 >= |pages| {
        currentPage := 0;
      } else {
        currentPage := currentPage + 1;
      }
      var page := PyGet(pages, currentPage);
      r := if page.Some? then Some(Edit(page.value)) else None;
    }

    /** `previous_page`: move the cursor back, then edit the menu to the page under it. */
    method PreviousPage() returns (r: Option<Display<Page>>)
      modifies this
      ensures pages == old(pages) && currentPage == PreviousIndex(old(currentPage), |pages|)
      ensures r.Some? <==> -|pages| <= currentPage < |pages|
      ensures r.Some? ==> r.value == Edit(pages[currentPage % |pages|])
    {
      if currentPage - 1 < 0 {
        currentPage := |pages| - 1;
      } else {
        currentPage := currentPage - 1;
      }
      var page := PyGet(pages, currentPage);
      r := if page.Some? then Some(Edit(page.value)) else None;
    }

    /** `go_to_first_page`: show page 0; the cursor stays where it is. */
    method GoToFirstPage() returns (r: Option<Display<Page>>)
      ensures r.Some? <==> |pages| > 0
      ensures r.Some? ==> r.value == Edit(pages[0])
    {
      var page := PyGet(pages, 0);
      r := if page.Some? then Some(Edit(page.value)) else None;
    }

    /** `go_to_last_page`: show `pages[-1]`; the cursor stays where it is. */
    method GoToLastPage() returns (r: Option<Display<Page>>)
      ensures r.Some? <==> |pages| > 0
      ensures r.Some? ==> r.value == Edit(pages[|pages| - 1])
    {
      var page := PyGet(pages, -1);
      r := if page.Some? then Some(Edit(page.value)) else None;
    }

    /** `go_to_page`: set the cursor to `page` unchecked, then send a new message with that page. */
    method GoToPage(page: int) returns (r: Option<Display<Page>>)
      modifies this
      ensures pages == old(pages) && currentPage == page
      ensures r.Some? <==> -|pages| <= page < |pages|
      ensures r.Some? ==> r.value == Send(pages[page % |pages|])
    {
      currentPage := page;
      var shown := PyGet(pages, currentPage);
      r := if shown.Some? then Some(Send(shown.value)) else None;
    }

    /** `start`: send the menu message with page 0; the cursor is not touched. */
    method Start() returns (r: Option<Display<Page>>)
      ensures r.Some? <==> |pages| > 0
      ensures r.Some? ==> r.value == Send(pages[0])
    {
      var page := PyGet(pages, 0);
      r := if page.Some? then Some(Send(page.value)) else None;
    }
  }
}
