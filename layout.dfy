/**
 * The document order the root component renders: a landing before the first
 * slide card, then each slide card followed by a landing. Landing k (the k-th
 * landing container in document order, the index the overlap scan reports)
 * therefore sits just before slide k and just after slide k - 1.
 */
module Layout {
  import opened Wrappers
  import opened SlideIds

  /** A slide of the list: its own id field and its title. */
  datatype Slide = Slide(id: string, title: string)

  /**
   * The rendered elements the controller relies on, each with the position
   * its id is built from: a landing's index k, a card's slide position i.
   */
  datatype Element =
    | LandingBox(index: nat, highlighted: bool)
    | SlideCard(index: nat, title: string)
  {
    /** The DOM id: `landing-k` for landing k, `slide-i` for the card of slide i. */
    function Id(): string
    {
      match this
      case LandingBox(k, _) => LandingElementId(k)
      case SlideCard(i, _) => SlideElementId(i)
    }
  }

  /** The id the landing component gives itself: `landing-${i + 1}` for its prop i = k - 1. */
  function LandingElementId(k: nat): string
  {
    "landing-" + Decimal(k)
  }

  /** A landing id is "landing-" followed by a non-empty run of decimal digits that reads back as k. */
  lemma LandingElementIdShape(k: nat)
    ensures var id := LandingElementId(k);
      |id| >= 9 && id[..8] == "landing-" && (forall j :: 8 <= j < |id| ==> IsDigit(id[j])) &&
      DigitsValue(id[8..], 10) == k
  {
    var id := LandingElementId(k);
    assert id[8..] == Decimal(k);
    DecimalValueOfDecimal(k);
  }

  /** The landing drawn after slide i - 1 (or first, for i = 0), highlighted when it is the overlapped one. */
  function LandingAt(i: nat, overlapping: int): Element
  {
    LandingBox(i, overlapping == i)
  }

  /** `slides.map(...)` from position i on: each card followed by its landing. */
  function RenderFrom(slides: seq<Slide>, i: nat, overlapping: int): (d: seq<Element>)
    requires i <= |slides|
    ensures |d| == 2 * (|slides| - i)
    decreases |slides| - i
  {
    if i == |slides| then []
    else [SlideCard(i, slides[i].title), LandingAt(i + 1, overlapping)]
         + RenderFrom(slides, i + 1, overlapping)
  }

  /** The inner container: the first landing, then every card with its landing. */
  function Render(slides: seq<Slide>, overlapping: int): (d: seq<Element>)
    ensures |d| == 2 * |slides| + 1 && d[0] == LandingAt(0, overlapping)
  {
    [LandingAt(0, overlapping)] + RenderFrom(slides, 0, overlapping)
  }

  /** `querySelectorAll(".landing-container")`: the landings in document order. */
  function Landings(doc: seq<Element>): (r: seq<Element>)
    ensures |r| <= |doc|
    ensures forall k :: 0 <= k < |r| ==> r[k].LandingBox?
  {
    if doc == [] then []
    else (if doc[0].LandingBox? then [doc[0]] else []) + Landings(doc[1..])
  }

  lemma {:induction false} LandingsAppend(a: seq<Element>, b: seq<Element>)
    ensures Landings(a + b) == Landings(a) + Landings(b)
  {
    if a == [] {
      assert a + b == b;
    } else {
      assert (a + b)[1..] == a[1..] + b;
      LandingsAppend(a[1..], b);
    }
  }

  /** Card i + j and the landing after it sit at positions 2j and 2j + 1 of RenderFrom(slides, i, _). */
  lemma {:induction false} RenderFromAt(slides: seq<Slide>, i: nat, overlapping: int, j: nat)
    requires i + j < |slides|
    ensures RenderFrom(slides, i, overlapping)[2 * j] == SlideCard(i + j, slides[i + j].title)
    ensures RenderFrom(slides, i, overlapping)[2 * j + 1] == LandingAt(i + j + 1, overlapping)
    decreases j
  {
    if j > 0 {
      RenderFromAt(slides, i + 1, overlapping, j - 1);
      var head := [SlideCard(i, slides[i].title), LandingAt(i + 1, overlapping)];
      var rest := RenderFrom(slides, i + 1, overlapping);
      assert RenderFrom(slides, i, overlapping) == head + rest;
      assert (head + rest)[2 * j] == rest[2 * (j - 1)];
      assert (head + rest)[2 * j + 1] == rest[2 * (j - 1) + 1];
    }
  }

  lemma LandingsOfCardAndLanding(card: Element, landing: Element)
    requires card.SlideCard? && landing.LandingBox?
    ensures Landings([card, landing]) == [landing]
  {
    assert [card, landing][1..] == [landing];
    assert [landing][1..] == [];
  }

  /** Past the first card, the landings of RenderFrom(slides, i, _) are landing i + 1 and those after it. */
  lemma LandingsOfRenderFromStep(slides: seq<Slide>, i: nat, overlapping: int)
    requires i < |slides|
    ensures Landings(RenderFrom(slides, i, overlapping))
            == [LandingAt(i + 1, overlapping)] + Landings(RenderFrom(slides, i + 1, overlapping))
  {
    var card := SlideCard(i, slides[i].title);
    var landing := LandingAt(i + 1, overlapping);
    var rest := RenderFrom(slides, i + 1, overlapping);
    assert RenderFrom(slides, i, overlapping) == [card, landing] + rest;
    LandingsAppend([card, landing], rest);
    LandingsOfCardAndLanding(card, landing);
  }

  lemma {:induction false} LandingsOfRenderFromLength(slides: seq<Slide>, i: nat, overlapping: int)
    requires i <= |slides|
    ensures |Landings(RenderFrom(slides, i, overlapping))| == |slides| - i
    decreases |slides| - i
  {
    if i < |slides| {
      LandingsOfRenderFromStep(slides, i, overlapping);
      LandingsOfRenderFromLength(slides, i + 1, overlapping);
    }
  }

  /** The j-th landing of RenderFrom(slides, i, _) is landing i + j + 1. */
  lemma {:induction false} LandingsOfRenderFromAt(slides: seq<Slide>, i: nat, overlapping: int, j: nat)
    requires i + j < |slides|
    ensures |Landings(RenderFrom(slides, i, overlapping))| == |slides| - i
    ensures Landings(RenderFrom(slides, i, overlapping))[j] == LandingAt(i + j + 1, overlapping)
    decreases j
  {
    LandingsOfRenderFromLength(slides, i, overlapping);
    LandingsOfRenderFromStep(slides, i, overlapping);
    if j > 0 {
      LandingsOfRenderFromAt(slides, i + 1, overlapping, j - 1);
    }
  }

  /**
   * The rendered document alternates landings and cards: landing k at
   * position 2k and slide i's card, with id `slide-i`, at position 2i + 1.
   * So landing 0 precedes the first card and landing i + 1 follows card i.
   */
  lemma RenderShape(slides: seq<Slide>, overlapping: int)
    ensures var d := Render(slides, overlapping);
      |d| == 2 * |slides| + 1 &&
      (forall k :: 0 <= k <= |slides| ==> d[2 * k] == LandingAt(k, overlapping)) &&
      (forall i :: 0 <= i < |slides| ==> d[2 * i + 1] == SlideCard(i, slides[i].title))
  {
    var d := Render(slides, overlapping);
    var rest := RenderFrom(slides, 0, overlapping);
    forall k | 0 < k <= |slides| ensures d[2 * k] == LandingAt(k, overlapping) {
      RenderFromAt(slides, 0, overlapping, k - 1);
      assert d[2 * k] == rest[2 * (k - 1) + 1];
    }
    forall i | 0 <= i < |slides|
      ensures d[2 * i + 1] == SlideCard(i, slides[i].title)
    {
      RenderFromAt(slides, 0, overlapping, i);
      assert d[2 * i + 1] == rest[2 * i];
    }
  }

  /**
   * There is one landing more than there are slides, and the k-th landing in
   * document order has id `landing-k` and is highlighted exactly when k is
   * the overlapped index.
   */
  lemma LandingsOfRender(slides: seq<Slide>, overlapping: int)
    ensures var ls := Landings(Render(slides, overlapping));
      |ls| == |slides| + 1 &&
      forall k :: 0 <= k < |ls| ==>
        ls[k].Id() == LandingElementId(k) && (ls[k].highlighted <==> overlapping == k)
  {
    var first := LandingAt(0, overlapping);
    LandingsAppend([first], RenderFrom(slides, 0, overlapping));
    assert Landings([first]) == [first] by {
      assert [first][1..] == [];
    }
    LandingsOfRenderFromLength(slides, 0, overlapping);
    var ls := Landings(Render(slides, overlapping));
    var tail := Landings(RenderFrom(slides, 0, overlapping));
    assert ls == [first] + tail;
    forall k | 0 < k < |ls|
      ensures ls[k].Id() == LandingElementId(k) && (ls[k].highlighted <==> overlapping == k)
    {
      LandingsOfRenderFromAt(slides, 0, overlapping, k - 1);
      assert ls[k] == tail[k - 1];
    }
  }

  /**
   * The card of slide i carries an id from which the drag-end handler
   * recovers exactly i, a valid index into the slide list.
   */
  lemma RenderedCardIdParses(slides: seq<Slide>, overlapping: int, i: nat)
    requires i < |slides|
    ensures var d := Render(slides, overlapping);
      2 * i + 1 < |d| && d[2 * i + 1].SlideCard? && ParseSlideId(d[2 * i + 1].Id()) == Some(i)
  {
    var d := Render(slides, overlapping);
    var rest := RenderFrom(slides, 0, overlapping);
    RenderFromAt(slides, 0, overlapping, i);
    assert d[2 * i + 1] == rest[2 * i];
    assert d[2 * i + 1].Id() == SlideElementId(i);
    ParseSlideIdOfSlideElementId(i);
  }
}
