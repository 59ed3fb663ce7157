/** The partners carousel of the home page
    (home/components/PartnersSection.tsx): up to four partners at a time,
    depending on the viewport width. The navigation and the window are the
    shared `Carousel`. */
module Partners {
  import Carousel

  datatype Partner = Partner(id: string, name: string, logo: string, website: string, specialite: string)

  /** `getSlidesToShow` (lines 20-24), with `window.innerWidth` as `width`. */
  function SlidesToShow(width: int): (s: nat)
    ensures width >= 1024 ==> s == 4
    ensures 768 <= width < 1024 ==> s == 2
    ensures width < 768 ==> s == 1
  {
    if width >= 1024 then 4 else if width >= 768 then 2 else 1
  }

  /** A wider viewport never shows fewer partners, and every width shows
      between one and four. */
  lemma SlidesToShowMonotone(narrow: int, wide: int)
    requires narrow <= wide
    ensures 1 <= SlidesToShow(narrow) <= SlidesToShow(wide) <= 4
  {
  }

  /** At any width the row shows some partner exactly when there is one,
      and never more partners than there are. */
  lemma SomePartnerShown(width: int, partners: seq<Partner>, current: nat)
    ensures var w := Carousel.Window(partners, current, SlidesToShow(width));
      && (w == [] <==> partners == [])
      && |w| <= |partners|
      && forall p :: p in w ==> p in partners
  {
    var w := Carousel.Window(partners, current, SlidesToShow(width));
    forall p | p in w
      ensures p in partners
    {
      var k :| 0 <= k < |w| && w[k] == p;
      assert p == partners[(current + k) % |partners|];
    }
  }
}
