/** The point store's elements and the pure operations on the `points` array: the reverse
    hit-test scan (script.js:198-209) and removal by reference (script.js:300-304). A point's
    identity is its object reference; there is no id field. */
module Points {
  import opened Wrappers
  import opened Geometry

  /** What a point holds at one moment: `{ x, y, label, tag }` (`label` is a Dafny
      keyword, hence `labelText`). */
  datatype PointValue = PointValue(x: int, y: int, labelText: string, tag: string)

  /** A point object; drag and edit assign its fields in place. */
  class Point {
    var x: int
    var y: int
    var labelText: string
    var tag: string

    constructor (x: int, y: int, labelText: string, tag: string)
      ensures Value() == PointValue(x, y, labelText, tag)
    {
      this.x, this.y, this.labelText, this.tag := x, y, labelText, tag;
    }

    function Value(): PointValue
      reads this
    {
      PointValue(x, y, labelText, tag)
    }

    /** The editor's rewrite of `label` and `tag` in place (script.js:285-286); the
        position stays. */
    method Relabel(labelText: string, tag: string)
      modifies this`labelText, this`tag
      ensures Value() == PointValue(old(x), old(y), labelText, tag)
    {
      this.labelText, this.tag := labelText, tag;
    }

    predicate IsNear(px: int, py: int)
      reads this
    {
      WithinHitRadius(x, y, px, py)
    }
  }

  /** The values of the points, in store order. */
  function Values(ps: seq<Point>): (r: seq<PointValue>)
    reads ps
    ensures |r| == |ps|
    ensures forall i :: 0 <= i < |ps| ==> r[i] == ps[i].Value()
  {
    if ps == [] then [] else [ps[0].Value()] + Values(ps[1..])
  }

  /** No object occurs twice in the store. */
  predicate Distinct<T(==)>(s: seq<T>)
  {
    forall i, j :: 0 <= i < j < |s| ==> s[i] != s[j]
  }

  /** The index `getPointAtPosition` stops at: the last (topmost-drawn) point within the hit
      radius of `(x, y)`, or none when no point is. */
  function TopmostHit(ps: seq<Point>, x: int, y: int): (r: Option<nat>)
    reads ps
    ensures r.None? <==> forall i :: 0 <= i < |ps| ==> !ps[i].IsNear(x, y)
    ensures r.Some? ==> r.value < |ps| && ps[r.value].IsNear(x, y) &&
                        forall j :: r.value < j < |ps| ==> !ps[j].IsNear(x, y)
  {
    if ps == [] then None
    else if ps[|ps| - 1].IsNear(x, y) then Some(|ps| - 1)
    else TopmostHit(ps[..|ps| - 1], x, y)
  }

  /** `Array.prototype.indexOf` by reference: the first index holding `p`, or -1. */
  function IndexOf<T(==)>(s: seq<T>, p: T): (r: int)
    ensures -1 <= r < |s|
    ensures r == -1 <==> p !in s
    ensures r >= 0 ==> s[r] == p && forall j :: 0 <= j < r ==> s[j] != p
  {
    if s == [] then -1
    else if s[0] == p then 0
    else var k := IndexOf(s[1..], p); if k == -1 then -1 else k + 1
  }

  /** `points.splice(index, 1)`. */
  function RemoveAt<T>(s: seq<T>, k: nat): (r: seq<T>)
    requires k < |s|
    ensures |r| == |s| - 1
    ensures forall j :: 0 <= j < k ==> r[j] == s[j]
    ensures forall j :: k <= j < |r| ==> r[j] == s[j + 1]
  {
    s[..k] + s[k + 1..]
  }

  /** The delete handler's effect on the store: splice out the first occurrence of `p`, or
      leave the store as it is when `p` is absent. */
  function Remove<T(==)>(s: seq<T>, p: T): (r: seq<T>)
    ensures p !in s ==> r == s
    ensures p in s ==> |r| == |s| - 1
  {
    var k := IndexOf(s, p);
    if k == -1 then s else RemoveAt(s, k)
  }

  /** In a store without repeated objects, removing `p` takes out exactly `p`: every other
      object stays, in its original order, and the store stays free of repeats. */
  lemma RemoveExactlyOne<T>(s: seq<T>, p: T)
    requires Distinct(s) && p in s
    ensures p !in Remove(s, p)
    ensures forall q :: q in Remove(s, p) <==> q in s && q != p
    ensures Distinct(Remove(s, p))
    ensures multiset(Remove(s, p)) == multiset(s) - multiset{p}
  {
    var k := IndexOf(s, p);
    var r := Remove(s, p);
    assert s == s[..k] + [p] + s[k + 1..];
    assert r == s[..k] + s[k + 1..];
    forall q | q in s && q != p ensures q in r {
      var i :| 0 <= i < |s| && s[i] == q;
      if i < k { assert r[i] == q; } else { assert r[i - 1] == q; }
    }
  }
}
