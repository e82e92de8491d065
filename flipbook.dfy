/**
 * The flipbook's click handling: the current page and whether the book is open, and the
 * per-leaf flags the renderer derives from the page.
 */
module FlipBook {
  import opened Basics
  import FlipBookPages

  /** Leaf `k` is turned over once the current page has passed it. */
  predicate Opened(page: int, k: nat) {
    page > k
  }

  /** The book lies shut on its front or its back cover. */
  predicate BookClosed(page: int, pageCount: nat) {
    page == 0 || page == pageCount
  }

  /** The `opened` flag of every leaf, in leaf order. */
  function OpenedFlags(page: int, pageCount: nat): (flags: seq<bool>)
    ensures |flags| == pageCount
    ensures forall k :: 0 <= k < pageCount ==> flags[k] == Opened(page, k)
  {
    if pageCount == 0 then [] else OpenedFlags(page, pageCount - 1) + [Opened(page, pageCount - 1)]
  }

  function CountTrue(flags: seq<bool>): nat {
    if flags == [] then 0 else CountTrue(flags[..|flags| - 1]) + (if flags[|flags| - 1] then 1 else 0)
  }

  /** Exactly `min(page, pageCount)` leaves are turned over. */
  lemma {:induction false} OpenedCount(page: nat, pageCount: nat)
    ensures CountTrue(OpenedFlags(page, pageCount)) == Min(page, pageCount)
  {
    if pageCount > 0 {
      OpenedCount(page, pageCount - 1);
      var flags := OpenedFlags(page, pageCount);
      assert flags[..pageCount - 1] == OpenedFlags(page, pageCount - 1);
    }
  }

  /** The book shows closed exactly when no leaf is turned or every leaf is. */
  lemma ClosedWhenAllOrNoneOpened(page: nat, pageCount: nat)
    requires page <= pageCount
    ensures BookClosed(page, pageCount) <==>
            CountTrue(OpenedFlags(page, pageCount)) == 0 || CountTrue(OpenedFlags(page, pageCount)) == pageCount
  {
    OpenedCount(page, pageCount);
  }

  class Book {
    const pageCount: nat
    var page: int
    var isBookOpen: bool
    /** What the book last told the scene through `setBookOpen`: `true` hides the avatar
        and the title. */
    var sceneBookOpen: bool

    ghost predicate Valid()
      reads this
    {
      && 0 <= page <= pageCount
      && (!isBookOpen ==> page == 0)
      && sceneBookOpen == isBookOpen
    }

    constructor (pageCount: nat)
      ensures Valid() && this.pageCount == pageCount
      ensures page == FlipBookPages.InitialPage && !isBookOpen
    {
      this.pageCount := pageCount;
      page := FlipBookPages.InitialPage;
      isBookOpen, sceneBookOpen := false, false;
    }

    /** A click on the book: a closed book opens on the page it shows; an open one turns a
        leaf, and past the last leaf closes back on the cover. */
    method HandleBookClick()
      requires Valid()
      modifies this
      ensures Valid()
      ensures !old(isBookOpen) ==> isBookOpen && page == old(page)
      ensures old(isBookOpen) && old(page) < pageCount ==> isBookOpen && page == old(page) + 1
      ensures old(isBookOpen) && old(page) >= pageCount ==> !isBookOpen && page == 0
    {
      if !isBookOpen {
        isBookOpen := true;
        sceneBookOpen := true;
        return;
      }
      if page < pageCount {
        page := page + 1;
      } else {
        page := 0;
        isBookOpen := false;
        sceneBookOpen := false;
      }
    }

    /** A click that lands outside the book: `clicked` is the name of the object hit, if any.
        Anything but the book itself closes it on the cover. */
    method HandleBackgroundClick(clicked: Option<string>)
      requires Valid()
      modifies this
      ensures Valid()
      ensures clicked == Some("flipbook") ==> page == old(page) && isBookOpen == old(isBookOpen)
      ensures clicked != Some("flipbook") ==> page == 0 && !isBookOpen
    {
      if clicked == Some("flipbook") {
        return;
      }
      page := 0;
      isBookOpen := false;
      sceneBookOpen := false;
    }
  }
}
