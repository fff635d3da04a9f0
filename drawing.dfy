/** What `drawPoints` puts on the canvas (script.js:139-168), reduced to one mark per drawn
    point: the disc's centre and colour and the label's text. Fonts, offsets and the axes are
    not modelled. */
module Drawing {
  import opened Tags
  import opened Points

  datatype Mark = Mark(x: int, y: int, color: string, labelText: string)

  /** The disc and label of one point, coloured by its effective tag. */
  function MarkOf(v: PointValue): Mark
  {
    Mark(v.x, v.y, TagColor(EffectiveTag(v.tag)), v.labelText)
  }

  /** The marks of the visible points, in store order (later points are drawn on top). */
  function Marks(vs: seq<PointValue>, filters: Filters): (r: seq<Mark>)
    ensures |r| <= |vs|
  {
    if vs == [] then []
    else
      var last := vs[|vs| - 1];
      var front := Marks(vs[..|vs| - 1], filters);
      if IsVisible(last.tag, filters) then front + [MarkOf(last)] else front
  }

  /** A mark is drawn exactly when it is the mark of some point the filters let through. */
  lemma {:induction false} MarksMembers(vs: seq<PointValue>, filters: Filters)
    ensures forall m :: m in Marks(vs, filters) <==>
              exists v :: v in vs && IsVisible(v.tag, filters) && m == MarkOf(v)
  {
    if vs != [] {
      var front, last := vs[..|vs| - 1], vs[|vs| - 1];
      MarksMembers(front, filters);
      assert vs == front + [last];
      assert forall v :: v in vs <==> v in front || v == last;
    }
  }

  /** A point the filters let through adds its mark after those of the points before it;
      one they hold back adds nothing. */
  lemma MarksSnoc(front: seq<PointValue>, last: PointValue, filters: Filters)
    ensures Marks(front + [last], filters) ==
              if IsVisible(last.tag, filters) then Marks(front, filters) + [MarkOf(last)]
              else Marks(front, filters)
  {
    assert (front + [last])[..|front|] == front;
  }

  /** Drawing a store in two parts gives the marks of the first part followed by those of
      the second, whatever the filters: the marks keep store order. */
  lemma {:induction false} MarksAppend(a: seq<PointValue>, b: seq<PointValue>, filters: Filters)
    ensures Marks(a + b, filters) == Marks(a, filters) + Marks(b, filters)
  {
    if b == [] {
      assert a + b == a;
    } else {
      var front, last := b[..|b| - 1], b[|b| - 1];
      MarksAppend(a, front, filters);
      assert b == front + [last];
      assert a + b == (a + front) + [last];
      MarksSnoc(a + front, last, filters);
      MarksSnoc(front, last, filters);
      AppendSnocAssoc(Marks(a, filters), Marks(front, filters), MarkOf(last));
    }
  }

  lemma AppendSnocAssoc(x: seq<Mark>, y: seq<Mark>, m: Mark)
    ensures (x + y) + [m] == x + (y + [m])
  {
  }

  /** With every checkbox checked each point gets exactly its own mark. */
  lemma {:induction false} AllShownDrawsEveryPoint(vs: seq<PointValue>)
    ensures |Marks(vs, AllShown)| == |vs|
    ensures forall i :: 0 <= i < |vs| ==> Marks(vs, AllShown)[i] == MarkOf(vs[i])
  {
    if vs != [] {
      var front, last := vs[..|vs| - 1], vs[|vs| - 1];
      AllShownDrawsEveryPoint(front);
      VisibilityRule(last.tag, AllShown);
      assert vs == front + [last];
      MarksSnoc(front, last, AllShown);
    }
  }
}
