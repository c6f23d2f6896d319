# Slide reordering by drag and drop: the drag-session controller

The application shows a vertical list of slide cards with a "landing" drop
zone before the first card and after every card. The root component `App`
tracks a drag session and commits the reorder. This project models that
controller and proves what it does:

- **Overlap test** (`Geometry`). The dragged card's rectangle is rebuilt
  from the pointer position minus the pointer offset captured at the start
  of the session. It overlaps a landing when both the horizontal and the
  vertical intervals overlap, with strict inequalities.
- **Scan and sentinel** (`DragSession`). On each drag event the landings
  are scanned in document order, and the first overlapping one becomes the
  `overlapping` index. If none overlaps, the index is reset to -1 unless
  clientX or clientY is 0, that is, unless the rectangle's left or top edge
  sits at minus the offset. The browser reports 0, 0 when the card is let
  go outside every landing. On the first event of a session only the
  offset is captured.
- **Reorder commit** (`Reorder`, `DragSession`). At drag end the card's
  position is parsed back from its DOM id `slide-<i>` with
  `split("-")[1]` and `parseInt` (`SlideIds`, including parseInt's `0x`
  prefix for base 16). The
  slide is spliced out and spliced back in at `landing - 1` when it came
  from before the landing, and at `landing` otherwise. Then the session is
  reset.
- **Layout** (`Layout`). Landing k is the k-th landing container in
  document order: landing 0 comes before the first card and landing i + 1
  after card i.

Files: `wrappers.dfy` (Option), `geometry.dfy`, `slide_ids.dfy`,
`reorder.dfy`, `layout.dfy`, `drag_session.dfy`. The class
`DragSession.DragController` holds the component's state: `slides` (a
`seq<Slide>`), `evtOffset` (an `Option<Offset>`, None for null) and
`overlapping` (-1 for none). Each handler reads the state as it was when
the event arrived and writes it when it returns, as the component's state
setters do. So the offset captured by the first drag event is only used
from the next event on. Pixel coordinates are modelled as `real`.

## Model

| member | source | states |
|---|---|---|
| Geometry.DraggedRect | src/App.js:130-133 | The dragged rectangle's left/top are the pointer position minus the captured offset; its width and height are the card's client size |
| Geometry.Overlaps | src/App.js:139-145 | The min/max test holds exactly when each rectangle has positive width and height and, on both axes, each starts strictly before the other ends |
| Geometry.OverlapsSymmetric | src/App.js:139-144 | The overlap test gives the same answer with its two rectangles swapped |
| Geometry.SeparatedIsNotOverlap | src/App.js:139-144 | Rectangles separated on either axis do not overlap, including rectangles that only share an edge (strict inequalities) |
| Geometry.OverlapsIffCommonInteriorPoint | src/App.js:139-145 | The test holds exactly when some point lies strictly inside both rectangles, that is, when the intersection has positive area |
| SlideIds.Decimal | src/App.js:231 | The template literal renders a natural number as a non-empty string of decimal digits |
| SlideIds.SlideElementId | src/App.js:231 | The card id is "slide-" followed by the decimal position; ParseSlideIdOfSlideElementId and SlideElementIdInjective characterise it |
| SlideIds.CharValue | src/App.js:178 | parseInt's digit values: '0'-'9' are 0-9 and letters of either case 10-35, so decimal digits are exactly the characters of value below 10 |
| SlideIds.AfterFirst | src/App.js:178 | Finding the first '-': None exactly when there is no separator, else the text after the first occurrence |
| SlideIds.UpTo | src/App.js:178 | `split("-")[1]` stops at the next separator: the field is a prefix without '-', followed by '-' or the end of the string |
| SlideIds.SecondField | src/App.js:178 | `split(sep)[1]`: undefined (None) exactly when sep does not occur, else the separator-free text between the first sep and the next sep or the end |
| SlideIds.LeadingDigits | src/App.js:178 | parseInt reads the longest prefix made of digits of the radix |
| SlideIds.ParseInt | src/App.js:178 | parseInt without a radix: after a "0x"/"0X" prefix it reads base 16 and gives NaN (None) exactly when no hex digit follows; otherwise it gives NaN exactly when the string does not start with a decimal digit |
| SlideIds.ParseIntHexExamples | src/App.js:178 | parseInt("0x1A") is 26, parseInt("0x") is NaN, parseInt("12ab") is 12 |
| SlideIds.ParseSlideId | src/App.js:178 | `parseInt(id.split("-")[1])` is NaN for an id without '-'; its round trip is ParseSlideIdOfSlideElementId |
| SlideIds.DecimalValueOfDecimal | src/App.js:178 | Reading back the digits of a rendered number in base 10 gives that number |
| SlideIds.ParseIntOfDecimal | src/App.js:178 | `parseInt` of a rendered number `n` gives n (a rendering never starts with "0x") |
| SlideIds.ParseSlideIdOfSlideElementId | src/App.js:178 | Round trip: parsing the id `slide-${i}` with `split("-")[1]` and parseInt recovers i for every natural i |
| SlideIds.SlideElementIdInjective | src/App.js:231-232 | Two card ids are equal exactly when they encode the same position |
| Reorder.RemoveAt | src/App.js:184 | `splice(i, 1)` shortens the list by one; elements before i stay, elements after it shift down by one |
| Reorder.InsertAt | src/App.js:187-189 | `splice(i, 0, x)` lengthens the list by one, puts x at index i and shifts the elements from i on up by one |
| Reorder.Destination | src/App.js:185-190 | The reinsertion index is below the landing exactly when the slide came from before it, and it is the landing or one less |
| Reorder.Move | src/App.js:183-190 | The reorder keeps the number of slides |
| Reorder.DestinationInRange | src/App.js:184-190 | For a slide index below n and a landing index at most n, the reinsertion index lies in the shortened list, so both splices stay in range |
| Reorder.MovePlacesSlide | src/App.js:185-190 | The moved slide lands at index landing - 1 when it came from before the landing, else at index landing |
| Reorder.MoveElements | src/App.js:183-190 | Element by element: moving down shifts the slides in between up by one; moving up shifts the slides from the landing to the old position down by one; the rest stay in place |
| Reorder.MoveIsPermutation | src/App.js:183-192 | The reorder is a permutation: the multiset of slides is unchanged |
| Reorder.MoveKeepsOthersInOrder | src/App.js:183-190 | Removing the moved slide from the result gives the original list without it, so all other slides keep their relative order |
| Reorder.MoveOntoAdjacentLandingIsIdentity | src/App.js:183-190 | Dropping a slide on the landing just before or just after it leaves the list unchanged |
| Reorder.MoveIsIdentityIffAdjacent | src/App.js:183-190 | With pairwise distinct slides, the list is unchanged exactly when the landing is one of the two next to the slide |
| Reorder.MoveUndone | src/App.js:183-190 | Dragging the moved slide back onto the landing next to its old position restores the original list |
| Reorder.DragFirstAfterThird | src/App.js:183-190 | Ten slides: dropping the first on landing 3 gives 2, 3, 1, 4, ..., 10 |
| Reorder.DragFifthBeforeSecond | src/App.js:183-190 | Ten slides: dropping the fifth on landing 1 gives 1, 5, 2, 3, 4, 6, ..., 10 |
| Layout.LandingElementId | src/Landing.js:4 | The landing with prop i gets id `landing-${i + 1}`, i.e. "landing-" and its index k; LandingElementIdShape characterises it |
| Layout.LandingElementIdShape | src/Landing.js:4 | A landing id is "landing-" followed by decimal digits that read back as the landing index |
| Layout.LandingAt | src/App.js:222-226 | The landing with index k, highlighted when the overlapped index is k (`overlapping === 0`, `overlapping === i + 1`); LandingsOfRender states it |
| Layout.RenderFrom | src/App.js:227-246 | The mapped slides from position i on render two elements each |
| Layout.Render | src/App.js:221-247 | The container holds 2·|slides| + 1 elements and starts with landing 0 |
| Layout.Landings | src/App.js:202-207 | The landing query returns only landing elements, in document order |
| Layout.RenderFromAt | src/App.js:227-246 | Mapping from position i on renders card i + j at offset 2j, followed by landing i + j + 1 |
| Layout.LandingsOfRenderFromAt | src/App.js:227-246 | The landings rendered from position i on are landing i + 1, i + 2, ..., in order |
| Layout.RenderShape | src/App.js:221-247 | The rendered list alternates landings and cards: landing k at position 2k, and card i at position 2i + 1 |
| Layout.LandingsOfRender | src/App.js:222-244 | There are one more landings than slides; the k-th has id `landing-k` and is highlighted exactly when k is the overlapped index |
| Layout.RenderedCardIdParses | src/App.js:229-232 | The id of card i parses back to i, a valid index into the slide list |
| DragSession.FirstOverlap | src/App.js:135-150 | Names the lowest index whose landing overlaps, with no earlier landing overlapping, or None when none overlaps |
| DragSession.NextOverlapping | src/App.js:135-156 | After a drag event of an ongoing session the index is the first overlapping landing; with none, -1 when clientX and clientY are both non-zero, otherwise unchanged |
| DragSession.ScanLandings | src/App.js:135-150 | The scan with break finds an overlap exactly when some landing overlaps, and stops at the lowest overlapping index |
| DragSession.ScanAgreesWithFirstOverlap | src/App.js:135-150 | Any result that meets the scan's contract is the one FirstOverlap names |
| DragSession.DragController.constructor | src/App.js:50-54 | A new controller is idle: no offset captured, overlapping -1 |
| DragSession.DragController.OnDrag | src/App.js:125-158 | On the first event only the offset is recorded and overlapping is untouched. Later events keep the offset and set overlapping to NextOverlapping. The slides are unchanged, and overlapping stays -1 or a landing index |
| DragSession.DragController.OnDragEnd | src/App.js:173-196 | The session is idle afterwards. With overlapping -1 the slides are unchanged; otherwise they become Move(slides, parsed card index, overlapping). The slides stay a permutation either way |

## Left out

- The drag image proxy: `onDragStart` clones the card, styles it and hands it to `dataTransfer`, and `onDragEnd` removes it from the document. These are browser APIs with no effect on the modelled state.
- `onDragOver` only calls `preventDefault`.
- The resize and scroll effects, `onScroll`, and the query of landing rectangles are DOM work. The cached landing rectangles are an input of `OnDrag`, in document order, as `Layout.Landings` describes them.
- React's asynchronous state updates are modelled as each handler reading state at entry and writing it at exit. Re-rendering itself is modelled only by `Layout.Render`.
- Pixel coordinates are JavaScript floating-point numbers and are modelled as reals. Rounding in `clientX - offsetX` is not modelled.
- The fixed seed data of ten slides is not modelled; the controller takes any initial list.
- `setSlides([...slides])` hands React a new array. Only its value is modelled, not the change of identity, and the in-place splicing of the render's own array is a local sequence.
- The check `if (landingId === -1) return;` cannot fire, because the enclosing branch already requires `overlapping !== -1`. It has no separate model.
- The landing component's colour styling is not modelled; only its id and highlight flag are.
- SlideIds.ParseInt: leading white space and a leading '+' are not skipped as parseInt would skip them. A field taken from `split("-")` never starts with '-', and card ids never contain white space.
- SlideIds.ParseInt: reads digit strings exactly, while parseInt rounds values above 2^53 to a double. Card positions are far below that.
- DragSession.DragController.OnDrag: requires at most |slides| + 1 landing rectangles. That is the number of rendered landings, or none before the first layout pass. It is what keeps `overlapping` at -1 or a landing index.
- DragSession.DragController.OnDragEnd: requires, when a landing is overlapped, that the element id parses to a valid slide index. Every rendered card meets this (`Layout.RenderedCardIdParses`). The source's behaviour on any other id (NaN positions) is not modelled.
