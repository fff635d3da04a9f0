/** Whole gestures and editor round trips, stated for every starting state that satisfies
    the controller's invariant: each method drives a `Canvas` through a sequence of events
    and its postcondition says what the sequence achieves. */
module Scenarios {
  import opened Wrappers
  import opened Text
  import opened Tags
  import opened Geometry
  import opened Points
  import opened Gestures
  import opened Modal
  import opened Interaction

  /** A press on empty space released within 2 pixels opens the adder at the RELEASE
      position, prefilled from the selected phrase; moves in between have no effect and the
      store is untouched. */
  method ClickOnEmpty(c: Canvas, down: Pos, moves: seq<Pos>, up: Pos)
    requires c.Valid()
    requires TopmostHit(c.points, down.x, down.y).None? && SmallMovement(down, up)
    modifies c
    ensures c.Valid() && c.AdderOpenAt(up)
    ensures c.points == old(c.points) && c.Model() == old(c.Model())
    ensures c.draggingPoint == null && c.dragStart.None? && !c.didDrag
  {
    c.MouseDown(down);
    for i := 0 to |moves|
      invariant c.Valid() && c.draggingPoint == null && c.dragStart == Some(down) && !c.didDrag
      invariant c.points == old(c.points)
    {
      c.MouseMove(moves[i]);
    }
    c.MouseUp(up);
  }

  /** A run of moves while point `p` is armed: the gesture has become a drag exactly when
      some move got more than 2 pixels away from the press on an axis, and once it is a
      drag the point sits at the latest move position. Only `didDrag` and the point's
      position change. */
  method MoveArmed(c: Canvas, p: Point, down: Pos, moves: seq<Pos>)
    requires c.Valid() && c.draggingPoint == p && c.dragStart == Some(down) && !c.didDrag
    modifies c`didDrag, p`x, p`y
    ensures c.Valid()
    ensures c.didDrag <==> exists j :: 0 <= j < |moves| && MovedPastDragThreshold(down, moves[j])
    ensures c.didDrag ==> p.x == moves[|moves| - 1].x && p.y == moves[|moves| - 1].y
    ensures !c.didDrag ==> p.x == old(p.x) && p.y == old(p.y)
  {
    for i := 0 to |moves|
      invariant c.Valid()
      invariant c.didDrag <==> exists j :: 0 <= j < i && MovedPastDragThreshold(down, moves[j])
      invariant c.didDrag ==> p.x == moves[i - 1].x && p.y == moves[i - 1].y
      invariant !c.didDrag ==> p.x == old(p.x) && p.y == old(p.y)
    {
      c.MouseMove(moves[i]);
    }
  }

  /** A press on a point, moves that never leave the 2-pixel box and a release within 2
      pixels open the editor for exactly the topmost point under the press, which has not
      moved. */
  method ClickOnPoint(c: Canvas, down: Pos, moves: seq<Pos>, up: Pos)
    requires c.Valid()
    requires TopmostHit(c.points, down.x, down.y).Some? && SmallMovement(down, up)
    requires forall j :: 0 <= j < |moves| ==> !MovedPastDragThreshold(down, moves[j])
    modifies c, c.HitAt(down.x, down.y)
    ensures c.Valid() && c.EditorOpenFor(old(c.HitAt(down.x, down.y)))
    ensures c.points == old(c.points)
    ensures forall i :: 0 <= i < |c.points| ==> c.points[i].Value() == old(c.points[i].Value())
    ensures c.draggingPoint == null && c.dragStart.None? && !c.didDrag
  {
    ghost var hit, ps := c.HitAt(down.x, down.y), c.points;
    c.MouseDown(down);
    var p := c.draggingPoint;
    assert p == hit && c.points == ps;
    MoveArmed(c, p, down, moves);
    assert ReleaseAction(c.draggingPoint != null, c.didDrag, c.dragStart, up) == OpenEdit;
    c.MouseUp(up);
  }

  /** A press on a point followed by moves of which at least one leaves the 2-pixel box is a
      drag: on release the point is at the LAST move position with its label and tag, no
      other point has changed, no modal opens and the gesture is reset. */
  method DragAndRelease(c: Canvas, down: Pos, moves: seq<Pos>, up: Pos) returns (p: Point)
    requires c.Valid()
    requires TopmostHit(c.points, down.x, down.y).Some?
    requires exists j :: 0 <= j < |moves| && MovedPastDragThreshold(down, moves[j])
    modifies c, c.HitAt(down.x, down.y)
    ensures p == old(c.HitAt(down.x, down.y)) && p in c.points && c.points == old(c.points)
    ensures p.Value() == PointValue(moves[|moves| - 1].x, moves[|moves| - 1].y, old(p.labelText), old(p.tag))
    ensures forall i :: 0 <= i < |c.points| && c.points[i] != p ==> c.points[i].Value() == old(c.points[i].Value())
    ensures c.ModalState() == old(c.ModalState())
    ensures c.Valid() && c.draggingPoint == null && c.dragStart.None? && !c.didDrag
  {
    ghost var modal := c.ModalState();
    c.MouseDown(down);
    p := c.draggingPoint;
    MoveArmed(c, p, down, moves);
    assert c.didDrag && c.ModalState() == modal;
    c.MouseUp(up);
  }

  /** The same drag ended by the cursor leaving the canvas: the positions written during
      the drag stay, no modal opens and the gesture is reset. */
  method DragAndLeave(c: Canvas, down: Pos, moves: seq<Pos>) returns (p: Point)
    requires c.Valid()
    requires TopmostHit(c.points, down.x, down.y).Some?
    requires exists j :: 0 <= j < |moves| && MovedPastDragThreshold(down, moves[j])
    modifies c, c.HitAt(down.x, down.y)
    ensures p == old(c.HitAt(down.x, down.y)) && p in c.points && c.points == old(c.points)
    ensures p.Value() == PointValue(moves[|moves| - 1].x, moves[|moves| - 1].y, old(p.labelText), old(p.tag))
    ensures forall i :: 0 <= i < |c.points| && c.points[i] != p ==> c.points[i].Value() == old(c.points[i].Value())
    ensures c.ModalState() == old(c.ModalState())
    ensures c.Valid() && c.draggingPoint == null && c.dragStart.None? && !c.didDrag
  {
    c.MouseDown(down);
    p := c.draggingPoint;
    MoveArmed(c, p, down, moves);
    c.MouseLeave();
  }

  /** Clicking empty space and saving a non-blank label appends exactly one new point at
      the click position, with the trimmed label and the chosen tag; no stored point
      changes. */
  method AddPoint(c: Canvas, pos: Pos, labelInput: string, checked: Option<string>) returns (p: Point)
    requires c.Valid()
    requires TopmostHit(c.points, pos.x, pos.y).None? && Trim(labelInput) != []
    modifies c
    ensures c.Valid() && !c.modalOpen
    ensures fresh(p) && c.points == old(c.points) + [p]
    ensures p.Value() == PointValue(pos.x, pos.y, Trim(labelInput), ChosenTag(checked))
  {
    c.MouseDown(pos);
    c.MouseUp(pos);
    c.Save(labelInput, checked);
    p := c.points[|c.points| - 1];
  }

  /** Clicking a point and saving a non-blank label rewrites that point's label and tag and
      nothing else: it keeps its position and its index in the store. */
  method EditPoint(c: Canvas, pos: Pos, labelInput: string, checked: Option<string>) returns (p: Point)
    requires c.Valid()
    requires TopmostHit(c.points, pos.x, pos.y).Some? && Trim(labelInput) != []
    modifies c, c.HitAt(pos.x, pos.y)
    ensures c.Valid() && !c.modalOpen
    ensures p == old(c.HitAt(pos.x, pos.y)) && c.points == old(c.points)
    ensures p.Value() == PointValue(old(p.x), old(p.y), Trim(labelInput), ChosenTag(checked))
    ensures forall i :: 0 <= i < |c.points| && c.points[i] != p ==> c.points[i].Value() == old(c.points[i].Value())
  {
    p := c.GetPointAtPosition(pos.x, pos.y);
    ClickOnPoint(c, pos, [], pos);
    c.Save(labelInput, checked);
  }

  /** Adding a point and then editing it: the store holds one more point, the same object
      at the end of the store and at the same position, carrying the second label and
      tag. */
  method AddThenEdit(c: Canvas, pos: Pos, first: string, firstTag: Option<string>,
                     second: string, secondTag: Option<string>) returns (p: Point)
    requires c.Valid()
    requires TopmostHit(c.points, pos.x, pos.y).None?
    requires Trim(first) != [] && Trim(second) != []
    modifies c
    ensures c.Valid() && !c.modalOpen
    ensures fresh(p) && c.points == old(c.points) + [p]
    ensures p.Value() == PointValue(pos.x, pos.y, Trim(second), ChosenTag(secondTag))
  {
    p := AddPoint(c, pos, first, firstTag);
    assert p.x == pos.x && p.y == pos.y;
    assert WithinHitRadius(pos.x, pos.y, pos.x, pos.y);
    assert c.points[|c.points| - 1] == p;
    var q := EditPoint(c, pos, second, secondTag);
  }

  /** Clicking a point and then Delete removes exactly that point; the others stay, in
      their order. */
  method ClickThenDelete(c: Canvas, pos: Pos) returns (p: Point)
    requires c.Valid()
    requires TopmostHit(c.points, pos.x, pos.y).Some?
    modifies c
    ensures c.Valid() && !c.modalOpen
    ensures p == old(c.HitAt(pos.x, pos.y)) && p !in c.points
    ensures c.points == Remove(old(c.points), p) && |c.points| == |old(c.points)| - 1
    ensures forall q :: q in c.points <==> q in old(c.points) && q != p
  {
    ghost var hit, ps := c.HitAt(pos.x, pos.y), c.points;
    c.MouseDown(pos);
    p := c.draggingPoint;
    assert p == hit && p in ps;
    assert ReleaseAction(true, false, Some(pos), pos) == OpenEdit;
    c.MouseUp(pos);
    assert c.points == ps && c.modalTargetPoint == OnPoint(p);
    c.Delete();
  }

  /** Selecting a phrase and clicking it again, then clicking empty space, opens a blank
      adder with the default tag rather than the preset. */
  method PhraseTwiceThenClick(c: Canvas, phrase: string, pos: Pos)
    requires c.Valid()
    requires c.activePhrase != Some(phrase)
    requires TopmostHit(c.points, pos.x, pos.y).None?
    modifies c
    ensures c.Valid() && c.activePhrase.None?
    ensures c.AdderOpenAt(pos) && c.modalTargetPoint == NoTarget
    ensures c.form == Form([], Some(PersonalTrait))
  {
    c.ClickPhrase(phrase);
    c.ClickPhrase(phrase);
    PhraseToggledTwiceGivesBlankForm(old(c.activePhrase), phrase);
    c.MouseDown(pos);
    c.MouseUp(pos);
  }
}
