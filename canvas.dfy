/** The controller of script.js: the module-level state (script.js:13-22, 38) as the fields
    of one object, and one method per event handler. `modalOpen` stands for
    `modalBackdrop.style.display` and `form` for what `openModal` writes into the label input
    and the radio group; the filter checkboxes are passed to `DrawPoints`. */
module Interaction {
  import opened Wrappers
  import opened Text
  import opened Tags
  import opened Phrases
  import opened Geometry
  import opened Points
  import opened Gestures
  import opened Modal
  import opened Drawing

  class Canvas {
    var points: seq<Point>
    var draggingPoint: Point?
    var dragStart: Option<Pos>
    var didDrag: bool
    var modalMode: Mode
    var modalTargetPoint: Target
    var pendingAddPosition: Option<Pos>
    var activePhrase: Option<string>
    var modalOpen: bool
    var form: Form

    /** The invariant every handler keeps: the store never holds an object twice, an armed
        gesture has a press position, only an armed gesture can have dragged, and a draft
        target is only set by the adder. */
    ghost predicate Valid()
      reads this`points, this`draggingPoint, this`dragStart, this`didDrag
      reads this`modalMode, this`modalTargetPoint
    {
      Distinct(points) &&
      (draggingPoint != null ==> dragStart.Some?) &&
      (didDrag ==> draggingPoint != null) &&
      (modalTargetPoint.Draft? ==> modalMode == Add)
    }

    /** The values of the stored points, in order. */
    ghost function Model(): seq<PointValue>
      reads this`points, points
    {
      Values(points)
    }

    /** The point `getPointAtPosition(x, y)` returns. */
    ghost function HitAt(x: int, y: int): Point?
      reads this`points, points
    {
      match TopmostHit(points, x, y)
      case Some(k) => points[k]
      case None => null
    }

    /** Everything the modal shows: whether it is open, its mode, target, pending position
        and form. */
    ghost function ModalState(): (bool, Mode, Target, Option<Pos>, Form)
      reads this`modalOpen, this`modalMode, this`modalTargetPoint, this`pendingAddPosition, this`form
    {
      (modalOpen, modalMode, modalTargetPoint, pendingAddPosition, form)
    }

    /** The objects `mousemove` may move. */
    function DragObjects(): set<Point>
      reads this`draggingPoint
    {
      if draggingPoint == null then {} else {draggingPoint}
    }

    /** The editor is showing point `p`. */
    ghost predicate EditorOpenFor(p: Point?)
      reads this`modalOpen, this`modalMode, this`modalTargetPoint, this`pendingAddPosition, this`form, p
    {
      p != null && modalOpen && modalMode == Edit && modalTargetPoint == OnPoint(p) &&
      pendingAddPosition.None? && form == EditForm(p.Value())
    }

    /** The adder is showing, for a new point at `pos`, prefilled from the selected phrase. */
    ghost predicate AdderOpenAt(pos: Pos)
      reads this`modalOpen, this`modalMode, this`modalTargetPoint, this`pendingAddPosition, this`form
      reads this`activePhrase
    {
      modalOpen && modalMode == Add && pendingAddPosition == Some(pos) &&
      form == AddForm(activePhrase) &&
      modalTargetPoint == (if IsSelected(activePhrase) then Draft(activePhrase.value, ProjectKeyPhrase) else NoTarget)
    }

    /** The state when the script starts: no points, no gesture, no modal, no phrase. */
    constructor ()
      ensures Valid() && points == []
      ensures draggingPoint == null && dragStart.None? && !didDrag
      ensures modalMode == Add && modalTargetPoint == NoTarget && pendingAddPosition.None?
      ensures activePhrase.None? && !modalOpen
    {
      points := [];
      draggingPoint, dragStart, didDrag := null, None, false;
      modalMode, modalTargetPoint, pendingAddPosition := Add, NoTarget, None;
      activePhrase := None;
      modalOpen, form := false, Form([], None);
    }

    /** `getPointAtPosition`: the reverse scan returns the topmost point within the hit
        radius, or null when there is none. */
    method GetPointAtPosition(x: int, y: int) returns (p: Point?)
      ensures p == HitAt(x, y)
      ensures p == null <==> forall i :: 0 <= i < |points| ==> !points[i].IsNear(x, y)
      ensures p != null ==> p in points && p.IsNear(x, y)
    {
      var i := |points|;
      while i > 0
        invariant 0 <= i <= |points|
        invariant forall j :: i <= j < |points| ==> !points[j].IsNear(x, y)
      {
        i := i - 1;
        if points[i].IsNear(x, y) {
          return points[i];
        }
      }
      return null;
    }

    /** The click handler of a phrase button. */
    method ClickPhrase(phrase: string)
      modifies this`activePhrase
      ensures activePhrase == Toggle(old(activePhrase), phrase)
    {
      if activePhrase == Some(phrase) {
        activePhrase := None;
      } else {
        activePhrase := Some(phrase);
      }
    }

    /** `drawPoints` without the canvas calls: the marks of the points the filters let
        through, in store order. Filtering leaves the store as it is. */
    method DrawPoints(filters: Filters) returns (marks: seq<Mark>)
      ensures marks == Marks(Model(), filters)
    {
      ghost var vs := Model();
      marks := [];
      var i := 0;
      while i < |points|
        invariant 0 <= i <= |points|
        invariant marks == Marks(vs[..i], filters)
      {
        var p := points[i];
        assert vs[..i + 1][..i] == vs[..i];
        // both the filter and the colour use `p.tag || "Personal Trait"`
        if IsVisible(p.tag, filters) {
          marks := marks + [MarkOf(p.Value())];
        }
        i := i + 1;
      }
      assert vs[..i] == vs;
    }

    /** `openModal`: records mode, target and pending position, prefills the form and
        shows the modal. */
    method OpenModal(mode: Mode, target: Target, position: Option<Pos>, isFromPhrase: bool)
      requires mode == Edit ==> target.OnPoint?
      modifies this`modalMode, this`modalTargetPoint, this`pendingAddPosition, this`modalOpen, this`form
      ensures modalMode == mode && modalTargetPoint == target && pendingAddPosition == position
      ensures modalOpen
      ensures form.labelText == match target
                                case OnPoint(p) => p.labelText
                                case Draft(l, _) => l
                                case NoTarget => []
      ensures form.checked == if isFromPhrase then Some(ProjectKeyPhrase)
                              else if mode == Edit then RadioFor(EffectiveTag(target.point.tag))
                              else Some(PersonalTrait)
    {
      modalMode := mode;
      modalTargetPoint := target;
      pendingAddPosition := position;
      var shown: string;
      if mode == Edit {
        shown := target.point.labelText;
      } else {
        shown := match target
                 case OnPoint(p) => p.labelText
                 case Draft(l, _) => l
                 case NoTarget => [];
      }
      var checked: Option<string>;
      if isFromPhrase {
        checked := Some(ProjectKeyPhrase);
      } else if mode == Edit {
        checked := RadioFor(EffectiveTag(target.point.tag));
      } else {
        checked := Some(PersonalTrait);
      }
      form := Form(shown, checked);
      modalOpen := true;
    }

    /** `closeModal`: hides the modal and forgets its target and pending position. */
    method CloseModal()
      modifies this`modalOpen, this`modalTargetPoint, this`pendingAddPosition
      ensures !modalOpen && modalTargetPoint == NoTarget && pendingAddPosition.None?
    {
      modalOpen := false;
      modalTargetPoint := NoTarget;
      pendingAddPosition := None;
    }

    /** The Save button. A label that is blank after trimming changes nothing and leaves the
        modal open. Otherwise the adder appends exactly one new point at the pending
        position, the editor rewrites only its target's label and tag, and the modal
        closes. */
    method Save(labelInput: string, checked: Option<string>)
      requires Valid()
      modifies this`points, this`modalOpen, this`modalTargetPoint, this`pendingAddPosition
      modifies if modalMode == Edit then modalTargetPoint.Objects() else {}
      ensures Valid()
      ensures Trim(labelInput) == [] ==>
                points == old(points) && modalOpen == old(modalOpen) &&
                modalTargetPoint == old(modalTargetPoint) &&
                pendingAddPosition == old(pendingAddPosition)
      ensures Trim(labelInput) == [] ==>
                forall q :: q in old(modalTargetPoint).Objects() ==> q.Value() == old(q.Value())
      ensures Trim(labelInput) != [] ==>
                !modalOpen && modalTargetPoint == NoTarget && pendingAddPosition.None?
      ensures Trim(labelInput) != [] && modalMode == Add && old(pendingAddPosition).Some? ==>
                var pos := old(pendingAddPosition).value;
                |points| == |old(points)| + 1 && points == old(points) + [points[|old(points)|]] &&
                fresh(points[|old(points)|]) &&
                points[|old(points)|].Value() == PointValue(pos.x, pos.y, Trim(labelInput), ChosenTag(checked))
      ensures Trim(labelInput) != [] && modalMode == Edit && old(modalTargetPoint).OnPoint? ==>
                var p := old(modalTargetPoint).point;
                points == old(points) &&
                p.Value() == PointValue(old(p.x), old(p.y), Trim(labelInput), ChosenTag(checked))
      ensures Trim(labelInput) != [] &&
              !(modalMode == Add && old(pendingAddPosition).Some?) &&
              !(modalMode == Edit && old(modalTargetPoint).OnPoint?) ==>
                points == old(points) && Model() == old(Model())
      ensures forall i ::
                0 <= i < |old(points)| &&
                !(modalMode == Edit && old(points[i]) in old(modalTargetPoint).Objects()) ==>
                  points[i] == old(points[i]) && points[i].Value() == old(points[i].Value())
    {
      var trimmed := Trim(labelInput);
      if trimmed == [] {
        return;
      }
      var tag := ChosenTag(checked);
      if modalMode == Add && pendingAddPosition.Some? {
        var pos := pendingAddPosition.value;
        var p := Push(pos.x, pos.y, trimmed, tag);
      } else if modalMode == Edit && modalTargetPoint.OnPoint? {
        modalTargetPoint.point.Relabel(trimmed, tag);
      }
      CloseModal();
    }

    /** `points.push` of a new point object (script.js:278-283): the store grows by exactly
        that object at the end. */
    method Push(x: int, y: int, labelText: string, tag: string) returns (p: Point)
      requires Valid()
      modifies this`points
      ensures Valid() && fresh(p) && points == old(points) + [p]
      ensures p.Value() == PointValue(x, y, labelText, tag)
    {
      p := new Point(x, y, labelText, tag);
      points := points + [p];
    }

    /** The Cancel button: the modal closes and the store is not touched. */
    method Cancel()
      requires Valid()
      modifies this`modalOpen, this`modalTargetPoint, this`pendingAddPosition
      ensures Valid()
      ensures !modalOpen && modalTargetPoint == NoTarget && pendingAddPosition.None?
      ensures points == old(points) && Model() == old(Model())
    {
      CloseModal();
    }

    /** A click on the modal's backdrop closes it when it landed on the backdrop itself
        rather than on the dialog; the store is not touched either way. */
    method ClickBackdrop(onBackdrop: bool)
      requires Valid()
      modifies this`modalOpen, this`modalTargetPoint, this`pendingAddPosition
      ensures Valid()
      ensures onBackdrop ==> !modalOpen && modalTargetPoint == NoTarget && pendingAddPosition.None?
      ensures !onBackdrop ==> modalOpen == old(modalOpen) && modalTargetPoint == old(modalTargetPoint) &&
                              pendingAddPosition == old(pendingAddPosition)
      ensures points == old(points) && Model() == old(Model())
    {
      if onBackdrop {
        CloseModal();
      }
    }

    /** The Delete button: splices the target object out of the store when it is there,
        leaves the store alone otherwise, and closes the modal. */
    method Delete()
      requires Valid()
      modifies this`points, this`modalOpen, this`modalTargetPoint, this`pendingAddPosition
      ensures Valid()
      ensures points == if old(modalTargetPoint).OnPoint? then Remove(old(points), old(modalTargetPoint).point)
                        else old(points)
      ensures old(modalTargetPoint).OnPoint? && old(modalTargetPoint).point in old(points) ==>
                |points| == |old(points)| - 1 && old(modalTargetPoint).point !in points &&
                forall q :: q in points <==> q in old(points) && q != old(modalTargetPoint).point
      ensures !modalOpen && modalTargetPoint == NoTarget && pendingAddPosition.None?
    {
      if modalTargetPoint != NoTarget {
        // a draft is never stored, so `indexOf` does not find it
        var index := if modalTargetPoint.OnPoint? then IndexOf(points, modalTargetPoint.point) else -1;
        if index != -1 {
          RemoveExactlyOne(points, modalTargetPoint.point);
          points := RemoveAt(points, index);
        }
      }
      CloseModal();
    }

    /** `mousedown`: arms the topmost point under the cursor (or nothing) and records the
        press position; nothing has been dragged yet. */
    method MouseDown(pos: Pos)
      requires Valid()
      modifies this`draggingPoint, this`dragStart, this`didDrag
      ensures Valid()
      ensures draggingPoint == HitAt(pos.x, pos.y) && dragStart == Some(pos) && !didDrag
    {
      var p := GetPointAtPosition(pos.x, pos.y);
      if p != null {
        draggingPoint := p;
        dragStart := Some(pos);
        didDrag := false;
      } else {
        draggingPoint := null;
        dragStart := Some(pos);
        didDrag := false;
      }
    }

    /** `mousemove`: without an armed point nothing changes. Otherwise the gesture becomes a
        drag once the cursor is more than 2 pixels away on an axis, and stays one; while it
        is a drag the armed point, and only it, is moved to the cursor. */
    method MouseMove(pos: Pos)
      requires Valid()
      modifies this`didDrag, DragObjects()`x, DragObjects()`y
      ensures Valid()
      ensures draggingPoint == null ==> didDrag == old(didDrag)
      ensures draggingPoint != null ==>
                didDrag == (old(didDrag) || MovedPastDragThreshold(dragStart.value, pos)) &&
                draggingPoint.Value() ==
                  if didDrag then PointValue(pos.x, pos.y, old(draggingPoint.labelText), old(draggingPoint.tag))
                  else old(draggingPoint.Value())
      ensures forall i :: 0 <= i < |points| && points[i] != draggingPoint ==>
                points[i].Value() == old(points[i].Value())
    {
      if draggingPoint == null {
        return;
      }
      var start := dragStart.value;
      if !didDrag && MovedPastDragThreshold(start, pos) {
        didDrag := true;
      }
      if didDrag {
        draggingPoint.x := pos.x;
        draggingPoint.y := pos.y;
      }
    }

    /** `mouseup`: a press on a point released within 2 pixels without a drag opens the
        editor for exactly that point; a press on empty space released within 2 pixels opens
        the adder at the release position; anything else opens nothing. The gesture is
        reset in every case; the frame leaves the store and every point as they were. */
    method MouseUp(pos: Pos)
      requires Valid()
      modifies this`draggingPoint, this`dragStart, this`didDrag
      modifies this`modalMode, this`modalTargetPoint, this`pendingAddPosition, this`modalOpen, this`form
      ensures Valid()
      ensures draggingPoint == null && dragStart.None? && !didDrag
      ensures ReleaseAction(old(draggingPoint) != null, old(didDrag), old(dragStart), pos) == OpenEdit ==>
                EditorOpenFor(old(draggingPoint))
      ensures ReleaseAction(old(draggingPoint) != null, old(didDrag), old(dragStart), pos) == OpenAdd ==>
                AdderOpenAt(pos)
      ensures ReleaseAction(old(draggingPoint) != null, old(didDrag), old(dragStart), pos) == NoModal ==>
                ModalState() == old(ModalState())
      ensures old(didDrag) ==> ModalState() == old(ModalState())
    {
      var wasDraggingPoint := draggingPoint;
      var smallMovement := dragStart.Some? && SmallMovement(dragStart.value, pos);
      if wasDraggingPoint != null && !didDrag && smallMovement {
        OpenModal(Edit, OnPoint(wasDraggingPoint), None, wasDraggingPoint.tag == ProjectKeyPhrase);
      } else if wasDraggingPoint == null && smallMovement {
        if IsSelected(activePhrase) {
          OpenModal(Add, Draft(activePhrase.value, ProjectKeyPhrase), Some(pos), true);
          form := form.(labelText := activePhrase.value);
        } else {
          OpenModal(Add, NoTarget, Some(pos), false);
        }
      }
      draggingPoint := null;
      dragStart := None;
      didDrag := false;
    }

    /** `mouseleave`: the gesture is dropped without opening a modal; positions already
        written by a drag stay. */
    method MouseLeave()
      requires Valid()
      modifies this`draggingPoint, this`dragStart, this`didDrag
      ensures Valid()
      ensures draggingPoint == null && dragStart.None? && !didDrag
      ensures ModalState() == old(ModalState())
    {
      draggingPoint := null;
      dragStart := None;
      didDrag := false;
    }
  }
}
