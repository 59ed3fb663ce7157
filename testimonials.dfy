/** The testimonials carousel of the home page
    (home/components/TestimonialsSection.tsx): up to three reviews at a
    time. The navigation and the window are the shared `Carousel`. */
module Testimonials {
  import opened Prelude
  import Carousel

  /** The fields of a review the card renders. */
  datatype Review = Review(id: string, fullName: string, message: string, stars: nat, image: string, posteActuelle: Option<string>)

  /** `getSlidesToShow` (lines 13-17), with `window.innerWidth` as `width`. */
  function SlidesToShow(width: int): (s: nat)
    ensures width >= 1024 ==> s == 3
    ensures 768 <= width < 1024 ==> s == 2
    ensures width < 768 ==> s == 1
  {
    if width >= 1024 then 3 else if width >= 768 then 2 else 1
  }

  /** A wider viewport never shows fewer reviews, and every width shows
      between one and three. */
  lemma SlidesToShowMonotone(narrow: int, wide: int)
    requires narrow <= wide
    ensures 1 <= SlidesToShow(narrow) <= SlidesToShow(wide) <= 3
  {
  }

  /** The line under the author's name (line 126): the current position, or
      nothing when it is missing or empty. */
  function PositionLine(r: Review): (line: string)
    ensures TruthyText(r.posteActuelle) ==> line == r.posteActuelle.value
    ensures !TruthyText(r.posteActuelle) ==> line == ""
  {
    if TruthyText(r.posteActuelle) then r.posteActuelle.value else ""
  }

  /** The window never repeats a review: its positions are pairwise
      distinct indices of the list. */
  lemma NoReviewShownTwice(width: int, reviews: seq<Review>, current: nat, j: nat, k: nat)
    requires j < k < |Carousel.Window(reviews, current, SlidesToShow(width))|
    ensures (current + j) % |reviews| != (current + k) % |reviews|
  {
    Carousel.WindowPositionsDistinct(current, SlidesToShow(width), |reviews|, j, k);
  }
}
