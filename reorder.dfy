/**
 * The reorder the drag-end handler commits: the dragged slide is spliced out
 * of the list and spliced back in next to the landing it was dropped on.
 * Landing k sits before slide k, so after the removal the insertion point
 * is k - 1 when the slide came from before the landing and k otherwise.
 */
module Reorder {

  /** `a.splice(i, 1)`: the list without its element at i. */
  function RemoveAt<T>(s: seq<T>, i: nat): (r: seq<T>)
    requires i < |s|
    ensures |r| == |s| - 1
    ensures forall k :: 0 <= k < |r| ==> r[k] == if k < i then s[k] else s[k + 1]
  {
    s[..i] + s[i + 1..]
  }

  /** `a.splice(i, 0, x)`: the list with x inserted so that it lands at index i. */
  function InsertAt<T>(s: seq<T>, i: nat, x: T): (r: seq<T>)
    requires i <= |s|
    ensures |r| == |s| + 1 && r[i] == x
    ensures forall k :: 0 <= k < |r| && k != i ==> r[k] == if k < i then s[k] else s[k - 1]
  {
    s[..i] + [x] + s[i..]
  }

  /**
   * Where the moved slide ends up: one before the landing when it came from
   * before it (the removal shifted the landing up by one), else at the landing.
   */
  function Destination(from: nat, landing: nat): (d: nat)
    ensures d < landing <==> from < landing
    ensures d <= landing <= d + 1
  {
    if from < landing then landing - 1 else landing
  }

  /** The slide at `from` dropped on landing `landing`, as the two splices leave the list. */
  function Move<T>(s: seq<T>, from: nat, landing: nat): (r: seq<T>)
    requires from < |s| && landing <= |s|
    ensures |r| == |s|
  {
    InsertAt(RemoveAt(s, from), Destination(from, landing), s[from])
  }

  /** Every index of both splices is in range: the moved slide's new index is a valid index. */
  lemma DestinationInRange(n: nat, from: nat, landing: nat)
    requires from < n && landing <= n
    ensures Destination(from, landing) < n
  {
  }

  /**
   * The moved slide ends up just before the slide that followed the landing:
   * at index landing - 1 when it came from before the landing, else at index
   * landing.
   */
  lemma MovePlacesSlide<T>(s: seq<T>, from: nat, landing: nat)
    requires from < |s| && landing <= |s|
    ensures from < landing ==> Move(s, from, landing)[landing - 1] == s[from]
    ensures landing <= from ==> Move(s, from, landing)[landing] == s[from]
  {
  }

  /**
   * Element by element: moving down (landing after the slide) shifts the
   * slides strictly between up by one; moving up shifts the slides from the
   * landing to the old position down by one; everything else stays put.
   */
  lemma MoveElements<T>(s: seq<T>, from: nat, landing: nat)
    requires from < |s| && landing <= |s|
    ensures var r := Move(s, from, landing);
      forall k :: 0 <= k < |s| ==>
        r[k] == if from < landing then
                  (if k < from || k >= landing then s[k]
                   else if k < landing - 1 then s[k + 1]
                   else s[from])
                else
                  (if k < landing || k > from then s[k]
                   else if k == landing then s[from]
                   else s[k - 1])
  {
  }

  /** The reorder is a permutation: the same slides, each as often as before. */
  lemma MoveIsPermutation<T>(s: seq<T>, from: nat, landing: nat)
    requires from < |s| && landing <= |s|
    ensures multiset(Move(s, from, landing)) == multiset(s)
  {
    var rest := RemoveAt(s, from);
    var d := Destination(from, landing);
    assert s == s[..from] + [s[from]] + s[from + 1..];
    assert rest == rest[..d] + rest[d..];
    calc {
      multiset(Move(s, from, landing));
      multiset(rest[..d] + [s[from]] + rest[d..]);
      multiset(rest[..d]) + multiset{s[from]} + multiset(rest[d..]);
      multiset(rest) + multiset{s[from]};
      multiset(s[..from]) + multiset(s[from + 1..]) + multiset{s[from]};
      multiset(s);
    }
  }

  /** All slides other than the moved one keep their relative order. */
  lemma MoveKeepsOthersInOrder<T>(s: seq<T>, from: nat, landing: nat)
    requires from < |s| && landing <= |s|
    ensures RemoveAt(Move(s, from, landing), Destination(from, landing)) == RemoveAt(s, from)
  {
  }

  /** Dropping a slide on either landing next to it leaves the list as it was. */
  lemma MoveOntoAdjacentLandingIsIdentity<T>(s: seq<T>, from: nat, landing: nat)
    requires from < |s| && (landing == from || landing == from + 1)
    ensures Move(s, from, landing) == s
  {
  }

  /**
   * When the slides are pairwise distinct, the list is unchanged exactly when
   * the slide is dropped on one of the two landings next to it.
   */
  lemma MoveIsIdentityIffAdjacent<T>(s: seq<T>, from: nat, landing: nat)
    requires from < |s| && landing <= |s|
    requires forall i, j :: 0 <= i < j < |s| ==> s[i] != s[j]
    ensures Move(s, from, landing) == s <==> (landing == from || landing == from + 1)
  {
  }

  /**
   * The landing that takes the slide now at the destination back to where it
   * came from: the one after its old position when it moved up, the one
   * before it when it moved down.
   */
  function ReturnLanding(from: nat, landing: nat): nat
  {
    if Destination(from, landing) <= from then from + 1 else from
  }

  /** Dragging the moved slide back onto ReturnLanding undoes the reorder. */
  lemma MoveUndone<T>(s: seq<T>, from: nat, landing: nat)
    requires from < |s| && landing <= |s|
    ensures var r := Move(s, from, landing);
      Destination(from, landing) < |r| && ReturnLanding(from, landing) <= |r| &&
      Move(r, Destination(from, landing), ReturnLanding(from, landing)) == s
  {
    var r := Move(s, from, landing);
    var d := Destination(from, landing);
    MoveKeepsOthersInOrder(s, from, landing);
    MovePlacesSlide(s, from, landing);
    assert Destination(d, ReturnLanding(from, landing)) == from;
    assert InsertAt(RemoveAt(s, from), from, s[from]) == s by {
      assert s == s[..from] + [s[from]] + s[from + 1..];
    }
  }

  /** Ten slides; the first dropped on the landing after the third. */
  lemma DragFirstAfterThird()
    ensures Move([1, 2, 3, 4, 5, 6, 7, 8, 9, 10], 0, 3) == [2, 3, 1, 4, 5, 6, 7, 8, 9, 10]
  {
  }

  /** Ten slides; the fifth dropped on the landing before the second. */
  lemma DragFifthBeforeSecond()
    ensures Move([1, 2, 3, 4, 5, 6, 7, 8, 9, 10], 4, 1) == [1, 5, 2, 3, 4, 6, 7, 8, 9, 10]
  {
  }
}
