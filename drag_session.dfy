/**
 * The drag-session controller of the root component. Its state is the slide
 * list, the pointer offset captured on the first drag event of a session
 * (null before that) and the index of the landing the dragged card overlaps
 * (-1 for none). Each handler reads the state as it was when the event
 * arrived and writes its updates when it returns, as the component's state
 * setters do; so the offset captured by the first drag event is only used
 * from the next one on.
 */
module DragSession {
  import opened Wrappers
  import opened Geometry
  import opened SlideIds
  import opened Reorder
  import opened Layout

  /** The offset from the pointer to the dragged card's top-left corner. */
  datatype Offset = Offset(x: real, y: real)

  /** The first landing, in list order, that the dragged rectangle overlaps. */
  function FirstOverlap(dragged: Rect, landings: seq<Rect>): (r: Option<nat>)
    ensures r.Some? ==> r.value < |landings| && Overlaps(dragged, landings[r.value])
    ensures r.Some? ==> forall j :: 0 <= j < r.value ==> !Overlaps(dragged, landings[j])
    ensures r.None? ==> forall j :: 0 <= j < |landings| ==> !Overlaps(dragged, landings[j])
  {
    if landings == [] then None
    else if Overlaps(dragged, landings[0]) then Some(0)
    else
      match FirstOverlap(dragged, landings[1..])
      case None => None
      case Some(i) => Some(i + 1)
  }

  /**
   * The overlapped index after a drag event of an ongoing session: the first
   * overlapping landing; with none, -1 unless the dragged rectangle's left or
   * top edge sits at minus the offset, that is, unless clientX or clientY is
   * 0 (the browser reports 0, 0 when the card is let go outside every
   * landing), in which case the index is kept.
   */
  function NextOverlapping(current: int, clientX: real, clientY: real, offset: Offset,
                           width: real, height: real, landings: seq<Rect>): (r: int)
    ensures var first := FirstOverlap(DraggedRect(clientX, clientY, offset.x, offset.y, width, height), landings);
      (first.Some? ==> r == first.value) &&
      (first.None? && clientX != 0.0 && clientY != 0.0 ==> r == -1) &&
      (first.None? && (clientX == 0.0 || clientY == 0.0) ==> r == current)
  {
    var dragged := DraggedRect(clientX, clientY, offset.x, offset.y, width, height);
    match FirstOverlap(dragged, landings)
    case Some(i) => i
    case None =>
      if dragged.left != -offset.x && dragged.top != -offset.y then -1 else current
  }

  /**
   * The scan of the drag handler: landings in list order, stopping at the
   * first one the dragged rectangle overlaps.
   */
  method ScanLandings(dragged: Rect, landings: seq<Rect>) returns (overlap: bool, index: nat)
    ensures overlap <==> exists j :: 0 <= j < |landings| && Overlaps(dragged, landings[j])
    ensures overlap ==> index < |landings| && Overlaps(dragged, landings[index])
    ensures overlap ==> forall j :: 0 <= j < index ==> !Overlaps(dragged, landings[j])
  {
    var n := |landings|;
    overlap, index := false, 0;
    var i := 0;
    while i < n
      invariant 0 <= i <= n
      invariant forall j :: 0 <= j < i ==> !Overlaps(dragged, landings[j])
    {
      if Overlaps(dragged, landings[i]) {
        overlap, index := true, i;
        break;
      }
      i := i + 1;
    }
  }

  /** The scan finds exactly the landing FirstOverlap names. */
  lemma ScanAgreesWithFirstOverlap(dragged: Rect, landings: seq<Rect>, overlap: bool, index: nat)
    requires overlap <==> exists j :: 0 <= j < |landings| && Overlaps(dragged, landings[j])
    requires overlap ==> index < |landings| && Overlaps(dragged, landings[index])
    requires overlap ==> forall j :: 0 <= j < index ==> !Overlaps(dragged, landings[j])
    ensures overlap ==> FirstOverlap(dragged, landings) == Some(index)
    ensures !overlap ==> FirstOverlap(dragged, landings) == None
  {
  }

  class DragController {
    var slides: seq<Slide>
    var evtOffset: Option<Offset>
    var overlapping: int

    /** The overlapped index is -1 or one of the |slides| + 1 landing indices. */
    ghost predicate Valid()
      reads this
    {
      -1 <= overlapping <= |slides|
    }

    /** No session in progress: no offset captured, no landing overlapped. */
    predicate Idle()
      reads this
    {
      evtOffset.None? && overlapping == -1
    }

    constructor (initial: seq<Slide>)
      ensures Valid() && Idle() && slides == initial
    {
      slides := initial;
      evtOffset := None;
      overlapping := -1;
    }

    /**
     * A drag event: the pointer at (clientX, clientY), the pointer's offset
     * within the card (nativeOffsetX, nativeOffsetY), the card's client size,
     * and the cached landing rectangles in document order (one per rendered
     * landing, or none before the first layout pass).
     */
    method OnDrag(clientX: real, clientY: real, nativeOffsetX: real, nativeOffsetY: real,
                  width: real, height: real, landings: seq<Rect>)
      requires Valid()
      requires |landings| <= |slides| + 1
      modifies this
      ensures Valid() && slides == old(slides)
      ensures old(evtOffset).None? ==>
        evtOffset == Some(Offset(nativeOffsetX, nativeOffsetY)) && overlapping == old(overlapping)
      ensures old(evtOffset).Some? ==>
        evtOffset == old(evtOffset) &&
        overlapping == NextOverlapping(old(overlapping), clientX, clientY, old(evtOffset).value,
                                       width, height, landings)
    {
      var offset := evtOffset;
      if offset.None? {
        evtOffset := Some(Offset(nativeOffsetX, nativeOffsetY));
      }
      if offset.Some? {
        var dragged := DraggedRect(clientX, clientY, offset.value.x, offset.value.y, width, height);
        var overlap, index := ScanLandings(dragged, landings);
        ScanAgreesWithFirstOverlap(dragged, landings, overlap, index);
        if overlap {
          overlapping := index;
        }
        if !overlap && dragged.left != -offset.value.x && dragged.top != -offset.value.y {
          overlapping := -1;
        }
      }
    }

    /**
     * The drag end of the card whose DOM id is elementId: when a landing is
     * overlapped, the card's position is parsed from its id and the slide is
     * moved next to that landing; the session is reset either way.
     */
    method OnDragEnd(elementId: string)
      requires Valid()
      requires overlapping != -1 ==> ParseSlideId(elementId).Some? && ParseSlideId(elementId).value < |slides|
      modifies this
      ensures Valid() && Idle()
      ensures old(overlapping) == -1 ==> slides == old(slides)
      ensures old(overlapping) != -1 ==>
        slides == Move(old(slides), ParseSlideId(elementId).value, old(overlapping))
      ensures multiset(slides) == multiset(old(slides))
    {
      if overlapping != -1 {
        var slideId := ParseSlideId(elementId).value;
        var landingId := overlapping;
        var slide := slides[slideId];
        var list := slides;
        list := RemoveAt(list, slideId);
        if slideId < landingId {
          list := InsertAt(list, landingId - 1, slide);
        } else {
          list := InsertAt(list, landingId, slide);
        }
        assert list == Move(slides, slideId, landingId);
        MoveIsPermutation(slides, slideId, landingId);
        slides := list;
        overlapping := -1;
      }
      evtOffset := None;
    }
  }

  /** The rectangle of the session below overlaps landing 2 first. */
  lemma SessionOverlapsLandingTwo(landings: seq<Rect>)
    requires landings == [Rect(0.0, 200.0, 0.0, 10.0), Rect(0.0, 200.0, 100.0, 110.0),
                          Rect(0.0, 200.0, 200.0, 210.0), Rect(0.0, 200.0, 300.0, 310.0)]
    ensures FirstOverlap(DraggedRect(60.0, 160.0, 10.0, 10.0, 200.0, 80.0), landings) == Some(2)
  {
    var dragged := DraggedRect(60.0, 160.0, 10.0, 10.0, 200.0, 80.0);
    assert dragged == Rect(50.0, 250.0, 150.0, 230.0);
    assert !Overlaps(dragged, landings[0]) && !Overlaps(dragged, landings[1]);
    assert Overlaps(dragged, landings[2]);
  }

  /**
   * A whole session through the handlers: three slides with landings 10 px
   * high every 100 px; the first card is dragged so that it overlaps only
   * landing 2 (after the second slide) and let go there. firstCardId is
   * any id that parses to 0, such as the first card's `slide-0`
   * (ParseSlideIdOfSlideElementId).
   */
  method DropFirstSlideAfterSecond(s1: Slide, s2: Slide, s3: Slide, firstCardId: string)
    requires ParseSlideId(firstCardId) == Some(0)
  {
    var c := new DragController([s1, s2, s3]);
    var landings := [Rect(0.0, 200.0, 0.0, 10.0), Rect(0.0, 200.0, 100.0, 110.0),
                     Rect(0.0, 200.0, 200.0, 210.0), Rect(0.0, 200.0, 300.0, 310.0)];
    c.OnDrag(50.0, 50.0, 10.0, 10.0, 200.0, 80.0, landings);
    assert c.evtOffset == Some(Offset(10.0, 10.0)) && c.overlapping == -1;
    SessionOverlapsLandingTwo(landings);
    c.OnDrag(60.0, 160.0, 25.0, 40.0, 200.0, 80.0, landings);
    assert c.overlapping == 2;
    assert Move([s1, s2, s3], 0, 2) == [s2, s1, s3] by {
      assert RemoveAt([s1, s2, s3], 0) == [s2, s3];
    }
    c.OnDragEnd(firstCardId);
    assert c.slides == [s2, s1, s3] && c.Idle();
  }
}
