/**
 * The flipbook's page table: a title cover, the experience images two to a leaf, and a
 * back cover that ends on the title page again.
 */
module FlipBookPages {

  /** One leaf of the book: the image on its front and the one on its back. */
  datatype Page = Page(front: string, back: string)

  const TitlePage: string := "title-pg"

  const ExperienceImages: seq<string> := [
    "TESLA", "tesla-pg", "nokia", "nokia-pg", "TA", "ta-pg",
    "mdafinal", "mda-pg", "research", "research-pg", "uhn", "uhn-pg"]

  /** The page the book starts on. */
  const InitialPage: nat := 0

  /** The images on the leaves, front then back, leaf by leaf. */
  function Sides(pages: seq<Page>): seq<string> {
    if pages == [] then [] else Sides(pages[..|pages| - 1]) + [pages[|pages| - 1].front, pages[|pages| - 1].back]
  }

  lemma SidesAppend(pages: seq<Page>, p: Page)
    ensures Sides(pages + [p]) == Sides(pages) + [p.front, p.back]
  {
    assert (pages + [p])[..|pages|] == pages;
  }

  /** After the loop has reached image `i`: the cover and the inner leaves so far. */
  ghost predicate BuiltUpTo(pages: seq<Page>, images: seq<string>, i: nat)
    requires 1 <= i <= |images|
  {
    && |pages| == (i + 1) / 2
    && pages[0] == Page(TitlePage, images[0])
    && (forall k :: 1 <= k < |pages| ==> 2 * k < |images| && pages[k] == Page(images[2 * k - 1], images[2 * k]))
    && Sides(pages) == [TitlePage] + images[..i]
  }

  /** Adding the leaf for images `i` and `i + 1` keeps the loop's invariant two images on. */
  lemma BuildStep(pages: seq<Page>, images: seq<string>, i: nat)
    requires 1 <= i && i + 1 < |images| && i % 2 == 1 && BuiltUpTo(pages, images, i)
    ensures BuiltUpTo(pages + [Page(images[i], images[i + 1])], images, i + 2)
  {
    SidesAppend(pages, Page(images[i], images[i + 1]));
    assert images[..i + 2] == images[..i] + [images[i], images[i + 1]];
  }

  /** Once the loop stops, adding the back cover gives the whole book. */
  lemma BuildFinish(pages: seq<Page>, images: seq<string>, i: nat)
    requires 1 <= i <= |images| && i % 2 == 1 && |images| - 1 <= i && BuiltUpTo(pages, images, i)
    ensures var book := pages + [Page(images[|images| - 1], TitlePage)];
            && |book| == (|images| - 1) / 2 + 2
            && (forall k :: 1 <= k < |book| - 1 ==> book[k] == Page(images[2 * k - 1], images[2 * k]))
            && Sides(book) ==
               [TitlePage] + images + (if |images| % 2 == 1 then [images[|images| - 1]] else []) + [TitlePage]
  {
    var n := |images|;
    SidesAppend(pages, Page(images[n - 1], TitlePage));
    if n % 2 == 0 {
      assert images[..i] + [images[n - 1]] == images;
    } else {
      assert images[..i] == images;
    }
  }

  /** The leaves for `images`: the cover, the inner leaves pairing images 2k-1 and 2k, and the
      back cover. Reading the sides in order gives the title page, every image in order, the
      last image a second time when there is an odd number of them, and the title page. */
  method BuildPages(images: seq<string>) returns (pages: seq<Page>)
    requires 0 < |images|
    ensures |pages| == (|images| - 1) / 2 + 2
    ensures pages[0] == Page(TitlePage, images[0])
    ensures pages[|pages| - 1] == Page(images[|images| - 1], TitlePage)
    ensures forall k :: 1 <= k < |pages| - 1 ==> pages[k] == Page(images[2 * k - 1], images[2 * k])
    ensures Sides(pages) ==
            [TitlePage] + images + (if |images| % 2 == 1 then [images[|images| - 1]] else []) + [TitlePage]
  {
    var n := |images|;
    pages := [Page(TitlePage, images[0])];
    assert images[..1] == [images[0]];
    var i := 1;
    while i < n - 1
      invariant 1 <= i <= n && i % 2 == 1
      invariant BuiltUpTo(pages, images, i)
    {
      // The title-page fallback for a missing back is never needed inside the loop.
      assert i + 1 < n;
      var back := if i + 1 < n then images[i + 1] else TitlePage;
      BuildStep(pages, images, i);
      pages := pages + [Page(images[i], back)];
      i := i + 2;
    }
    BuildFinish(pages, images, i);
    pages := pages + [Page(images[n - 1], TitlePage)];
  }

  /** The book as shipped: twelve images give the cover, five inner leaves and the back cover. */
  method ExperiencePages() returns (pages: seq<Page>)
    ensures |pages| == 7
    ensures pages[0] == Page(TitlePage, "TESLA") && pages[6] == Page("uhn-pg", TitlePage)
    ensures pages[1] == Page("tesla-pg", "nokia")
  {
    pages := BuildPages(ExperienceImages);
  }
}
