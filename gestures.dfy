/** The decision `mouseup` takes (script.js:352-393) from what the gesture recorded. */
module Gestures {
  import opened Wrappers
  import opened Geometry

  /** What a release does: open the editor for the armed point, open the adder, or neither. */
  datatype Release = OpenEdit | OpenAdd | NoModal

  /** `armed` is `draggingPoint != null`, `start` is `dragStart` and `pos` the release
      position; `smallMovement` is false when no press was recorded. */
  function ReleaseAction(armed: bool, didDrag: bool, start: Option<Pos>, pos: Pos): (r: Release)
    ensures r == OpenEdit <==> armed && !didDrag && start.Some? && SmallMovement(start.value, pos)
    ensures r == OpenAdd <==> !armed && start.Some? && SmallMovement(start.value, pos)
  {
    var smallMovement := start.Some? && SmallMovement(start.value, pos);
    if armed && !didDrag && smallMovement then OpenEdit
    else if !armed && smallMovement then OpenAdd
    else NoModal
  }

  /** A completed drag is terminal: it never opens a modal, wherever the cursor is
      released. Neither does a release far from the press or one with no recorded press. */
  lemma NoModalAfterDrag(armed: bool, didDrag: bool, start: Option<Pos>, pos: Pos)
    ensures armed && didDrag ==> ReleaseAction(armed, didDrag, start, pos) == NoModal
    ensures start.None? ==> ReleaseAction(armed, didDrag, start, pos) == NoModal
    ensures start.Some? && MovedPastDragThreshold(start.value, pos) ==>
              ReleaseAction(armed, didDrag, start, pos) == NoModal
  {
  }
}
