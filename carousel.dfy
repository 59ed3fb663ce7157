/** The circular carousels of the home page (PartnersSection.tsx and
    TestimonialsSection.tsx share the same code): a current index moved by
    prev/next buttons modulo the number of items, and a window of at most
    `slidesToShow` items read from it with wrap-around. */
module Carousel {
  import opened Prelude

  // ---------------------------------------------------------------------
  // Modular arithmetic the carousel relies on
  // ---------------------------------------------------------------------

  /** A product of a non-negative and a positive integer. */
  lemma MulBounds(d: int, n: int)
    requires n > 0
    ensures d >= 1 ==> d * n >= n
    ensures d <= -1 ==> d * n <= -n
    ensures d == 0 ==> d * n == 0
  {
    if d >= 1 {
      assert d * n == (d - 1) * n + n;
    } else if d <= -1 {
      assert d * n == (d + 1) * n - n;
    }
  }

  /** Euclidean division has one quotient and one remainder. */
  lemma ModUnique(x: int, n: int, q: int, r: int)
    requires n > 0 && x == q * n + r && 0 <= r < n
    ensures x % n == r && x / n == q
  {
    var d := x / n - q;
    assert d * n == r - x % n;
    MulBounds(d, n);
  }

  /** Reducing the left operand first does not change a sum's remainder. */
  lemma ModAdd(a: nat, b: nat, n: nat)
    requires n > 0
    ensures ((a % n) + b) % n == (a + b) % n
  {
    var q := a / n;
    assert a == q * n + a % n;
    var t := (a % n) + b;
    ModUnique(t, n, t / n, t % n);
    ModUnique(a + b, n, q + t / n, t % n);
  }

  // ---------------------------------------------------------------------
  // Navigation (goPrev / goNext)
  // ---------------------------------------------------------------------

  /** `goNext`, as intended: one step forward modulo `n`; with no items the
      index stays where it is (see `NextAsWritten`). */
  function Next(i: nat, n: nat): (j: nat)
    ensures n > 0 ==> j < n
    ensures n == 0 ==> j == i
  {
    if n == 0 then i else (i + 1) % n
  }

  /** `goPrev`, as intended: one step backward modulo `n`, from 0 to `n - 1`. */
  function Prev(i: nat, n: nat): (j: nat)
    ensures n > 0 ==> j < n
    ensures n == 0 ==> j == i
  {
    if n == 0 then i else (i - 1 + n) % n
  }

  /** Prev undoes Next and Next undoes Prev, for an index in range. */
  lemma PrevNextInverse(i: nat, n: nat)
    requires i < n
    ensures Prev(Next(i, n), n) == i
    ensures Next(Prev(i, n), n) == i
  {
    if i + 1 < n {
      ModUnique(i + 1, n, 0, i + 1);
      ModUnique(i + n, n, 1, i);
    } else {
      ModUnique(i + 1, n, 1, 0);
      ModUnique(n - 1, n, 0, n - 1);
    }
    if i == 0 {
      ModUnique(n - 1, n, 0, n - 1);
      ModUnique(n, n, 1, 0);
    } else {
      ModUnique(i - 1 + n, n, 1, i - 1);
      ModUnique(i, n, 0, i);
    }
  }

  /** `k` presses of next. */
  function NextTimes(i: nat, k: nat, n: nat): nat
    decreases k
  {
    if k == 0 then i else Next(NextTimes(i, k - 1, n), n)
  }

  /** `k` presses of next advance an index in range by `k` modulo `n`. */
  lemma {:induction false} NextTimesIsAddition(i: nat, k: nat, n: nat)
    requires i < n
    ensures NextTimes(i, k, n) == (i + k) % n
    decreases k
  {
    if k == 0 {
      ModUnique(i, n, 0, i);
    } else {
      NextTimesIsAddition(i, k - 1, n);
      ModAdd(i + k - 1, 1, n);
    }
  }

  /** `n` presses of next come back to the start. */
  lemma FullTurn(i: nat, n: nat)
    requires i < n
    ensures NextTimes(i, n, n) == i
  {
    NextTimesIsAddition(i, n, n);
    ModUnique(i + n, n, 1, i);
  }

  // ---------------------------------------------------------------------
  // The visible window
  // ---------------------------------------------------------------------

  /** The loop bound of lines 54/34: `Math.min(slidesToShow, n)`. */
  function VisibleCount(slidesToShow: nat, n: nat): (c: nat)
    ensures c <= slidesToShow && c <= n
    ensures c == slidesToShow || c == n
  {
    Min(slidesToShow, n)
  }

  /** Reference definition of the window: position `k` shows item
      `(current + k) mod n`. */
  function Window<T>(items: seq<T>, current: nat, slidesToShow: nat): (w: seq<T>)
    ensures |w| == VisibleCount(slidesToShow, |items|)
  {
    var n := |items|;
    seq(VisibleCount(slidesToShow, n), k requires 0 <= k < VisibleCount(slidesToShow, n) => items[(current + k) % n])
  }

  /** Positions `k < count` of a window are distinct items of the list, so
      no item is shown twice. */
  lemma WindowPositionsDistinct(current: nat, slidesToShow: nat, n: nat, j: nat, k: nat)
    requires j < k < VisibleCount(slidesToShow, n)
    ensures (current + j) % n != (current + k) % n
  {
    var qj, qk := (current + j) / n, (current + k) / n;
    if (current + k) % n == (current + j) % n {
      assert (qk - qj) * n == k - j;
      MulBounds(qk - qj, n);
    }
  }

  /** Pressing next slides the window by one: what was at position `k + 1`
      is now at position `k`. */
  lemma WindowAfterNext<T>(items: seq<T>, current: nat, slidesToShow: nat, k: nat)
    requires k + 1 < VisibleCount(slidesToShow, |items|)
    ensures Window(items, Next(current, |items|), slidesToShow)[k] == Window(items, current, slidesToShow)[k + 1]
  {
    ModAdd(current + 1, k, |items|);
  }

  // ---------------------------------------------------------------------
  // The navigation as written, over JavaScript numbers
  // ---------------------------------------------------------------------

  /** A carousel index as a JavaScript number: a non-negative integer, or
      the NaN that `x % 0` produces. */
  datatype JsIndex = Index(i: nat) | NaN

  /** `(prev + 1) % length` as written: NaN for an empty list, and NaN
      stays NaN; otherwise the intended next index. */
  function NextAsWritten(cur: JsIndex, n: nat): (r: JsIndex)
    ensures r.NaN? <==> cur.NaN? || n == 0
    ensures r.Index? ==> r.i < n && r.i == Next(cur.i, n)
  {
    match cur
    case NaN => NaN
    case Index(i) => if n == 0 then NaN else Index((i + 1) % n)
  }

  /** `(prev - 1 + length) % length` as written. */
  function PrevAsWritten(cur: JsIndex, n: nat): (r: JsIndex)
    ensures r.NaN? <==> cur.NaN? || n == 0
    ensures r.Index? ==> r.i < n && r.i == Prev(cur.i, n)
  {
    match cur
    case NaN => NaN
    case Index(i) => if n == 0 then NaN else Index((i - 1 + n) % n)
  }

  /** `items[(current + k) % length]`: `None` is `undefined`, which a NaN
      index or an empty list gives; otherwise an item of the list. */
  function ElementAsWritten<T>(items: seq<T>, cur: JsIndex, k: nat): (e: Option<T>)
    ensures e.None? <==> cur.NaN? || |items| == 0
    ensures e.Some? ==> e.value in items
  {
    match cur
    case NaN => None
    case Index(i) => if |items| == 0 then None else Some(items[(i + k) % |items|])
  }

  /** With a numeric index, slot `k` of the loop reads position `k` of the
      window. */
  lemma ElementIsWindowSlot<T>(items: seq<T>, i: nat, slidesToShow: nat, k: nat)
    requires k < VisibleCount(slidesToShow, |items|)
    ensures ElementAsWritten(items, Index(i), k) == Some(Window(items, i, slidesToShow)[k])
  {
  }

  // ---------------------------------------------------------------------
  // The component's state
  // ---------------------------------------------------------------------

  class Carousel<T> {
    var items: seq<T>
    var currentIndex: JsIndex
    var slidesToShow: nat

    /** The first render: `useState(0)` and the slide count of the width,
        supplied by the caller. */
    constructor (items: seq<T>, slidesToShow: nat)
      ensures this.items == items && currentIndex == Index(0) && this.slidesToShow == slidesToShow
    {
      this.items := items;
      currentIndex := Index(0);
      this.slidesToShow := slidesToShow;
    }

    /** New items from the parent; the index is kept as it is. */
    method SetItems(newItems: seq<T>)
      modifies this`items
      ensures items == newItems
    {
      items := newItems;
    }

    /** The resize listener. */
    method Resize(newSlides: nat)
      modifies this`slidesToShow
      ensures slidesToShow == newSlides
    {
      slidesToShow := newSlides;
    }

    /** `goNext`, as written: NaN on an empty list or from NaN, otherwise
        the intended next index. */
    method GoNext()
      modifies this`currentIndex
      ensures currentIndex == NextAsWritten(old(currentIndex), |items|)
      ensures currentIndex.NaN? <==> old(currentIndex).NaN? || |items| == 0
      ensures currentIndex.Index? ==> currentIndex.i == Next(old(currentIndex).i, |items|) < |items|
    {
      currentIndex := match currentIndex
        case NaN => NaN
        case Index(i) => if |items| == 0 then NaN else Index((i + 1) % |items|);
    }

    /** `goPrev`, as written. */
    method GoPrev()
      modifies this`currentIndex
      ensures currentIndex == PrevAsWritten(old(currentIndex), |items|)
      ensures currentIndex.NaN? <==> old(currentIndex).NaN? || |items| == 0
      ensures currentIndex.Index? ==> currentIndex.i == Prev(old(currentIndex).i, |items|) < |items|
    {
      currentIndex := match currentIndex
        case NaN => NaN
        case Index(i) => if |items| == 0 then NaN else Index((i - 1 + |items|) % |items|);
    }

    /** The `for`/`push` loop building the visible items (lines 53-56 of
        PartnersSection.tsx, 33-36 of TestimonialsSection.tsx). A slot is
        `None` where the source pushes `undefined`: every slot, once the
        index is NaN. */
    method VisibleItems() returns (visible: seq<Option<T>>)
      ensures |visible| == VisibleCount(slidesToShow, |items|)
      ensures forall k :: 0 <= k < |visible| ==> visible[k] == ElementAsWritten(items, currentIndex, k)
      ensures currentIndex.Index? ==>
        forall k :: 0 <= k < |visible| ==> visible[k] == Some(Window(items, currentIndex.i, slidesToShow)[k])
      ensures currentIndex.NaN? ==> forall k :: 0 <= k < |visible| ==> visible[k].None?
    {
      visible := [];
      var count := Min(slidesToShow, |items|);
      for k := 0 to count
        invariant |visible| == k
        invariant forall j :: 0 <= j < k ==> visible[j] == ElementAsWritten(items, currentIndex, j)
      {
        var slot := match currentIndex
          case NaN => None
          case Index(c) => Some(items[(c + k) % |items|]);
        visible := visible + [slot];
      }
      if currentIndex.Index? {
        forall k | 0 <= k < |visible|
          ensures visible[k] == Some(Window(items, currentIndex.i, slidesToShow)[k])
        {
          ElementIsWindowSlot(items, currentIndex.i, slidesToShow, k);
        }
      }
    }
  }

  /** With items, the code as written and the intended navigation agree. */
  lemma AsWrittenAgreesWithItems(i: nat, n: nat)
    requires n > 0
    ensures NextAsWritten(Index(i), n) == Index(Next(i, n))
    ensures PrevAsWritten(Index(i), n) == Index(Prev(i, n))
  {
  }

  /** A press of next (or prev) while the list is still empty turns the
      index into NaN; once items arrive NaN stays, and every slot of the
      window reads `undefined`, whose `_id` the render then dereferences. */
  lemma EmptyListPoisonsIndex<T>(items: seq<T>, k: nat)
    requires |items| > 0
    ensures NextAsWritten(Index(0), 0) == NaN && PrevAsWritten(Index(0), 0) == NaN
    ensures NextAsWritten(NaN, |items|) == NaN && PrevAsWritten(NaN, |items|) == NaN
    ensures ElementAsWritten(items, NextAsWritten(Index(0), 0), k) == None
  {
  }

  /** The intended navigation, by contrast, leaves an empty carousel at
      index 0, after which the first window after loading starts at the
      first item. */
  lemma IntendedNavigationStaysDefined<T>(items: seq<T>, slidesToShow: nat)
    requires |items| > 0 && slidesToShow > 0
    ensures Next(0, 0) == 0 && Prev(0, 0) == 0
    ensures Window(items, Next(0, 0), slidesToShow)[0] == items[0]
  {
    ModUnique(0, |items|, 0, 0);
  }
}
