/** The mouse behaviour of a Points layer, as its tests drive it: a layer
    holds point coordinates, a selection of point indices and an
    interaction mode; mouse press, move and release events change the data
    and the selection in place.

    Which point lies under the cursor, and which points a drag box spans,
    are inputs of the press and release events.  The scenarios that replay
    the tests compute them with a geometric rule: a point is under the
    cursor when every coordinate is within half the point size of the
    cursor's (the last such point wins), and a box holds the points whose
    every coordinate lies between its corners'. */
module PointsMouseBindings {
  import opened Wrappers

  type Point = seq<real>

  datatype Mode = PanZoom | Add | Select

  /** The state between a press and its release: where the press happened,
      the point it landed on (select mode), and where the latest dragging
      move went, if any. */
  datatype Gesture = Idle | Pressed(at: Point, hit: Option<nat>, dragTo: Option<Point>)

  /** The cursor is over `p`. */
  predicate Near(p: Point, cursor: Point, size: real) {
    |p| == |cursor| && forall d :: 0 <= d < |p| ==> -size / 2.0 <= p[d] - cursor[d] <= size / 2.0
  }

  /** The point a click at `cursor` lands on: the last one the cursor is
      over, or none. */
  function HitTest(data: seq<Point>, cursor: Point, size: real): (r: Option<nat>)
    ensures r.Some? ==> r.value < |data| && Near(data[r.value], cursor, size)
    ensures r.Some? ==> forall j :: r.value < j < |data| ==> !Near(data[j], cursor, size)
    ensures r.None? ==> forall j :: 0 <= j < |data| ==> !Near(data[j], cursor, size)
    decreases |data|
  {
    if |data| == 0 then None
    else if Near(data[|data| - 1], cursor, size) then Some(|data| - 1)
    else HitTest(data[..|data| - 1], cursor, size)
  }

  function Min(x: real, y: real): real { if x <= y then x else y }
  function Max(x: real, y: real): real { if x <= y then y else x }

  /** `p` lies in the axis-aligned box with opposite corners `a` and `b`. */
  predicate InBox(p: Point, a: Point, b: Point) {
    |p| == |a| == |b| && forall d :: 0 <= d < |p| ==> Min(a[d], b[d]) <= p[d] <= Max(a[d], b[d])
  }

  /** The indices a drag box from `a` to `b` selects. */
  function BoxSelect(data: seq<Point>, a: Point, b: Point): (r: set<nat>)
    ensures forall i :: i in r <==> 0 <= i < |data| && InBox(data[i], a, b)
  {
    set i: nat | i < |data| && InBox(data[i], a, b)
  }

  /** A box that spans every point selects them all; one that spans none
      selects nothing. */
  lemma BoxSelectAllOrNone(data: seq<Point>, a: Point, b: Point)
    ensures (forall i :: 0 <= i < |data| ==> InBox(data[i], a, b)) ==>
      forall i :: i in BoxSelect(data, a, b) <==> 0 <= i < |data|
    ensures (forall i :: 0 <= i < |data| ==> !InBox(data[i], a, b)) ==> BoxSelect(data, a, b) == {}
  {
  }

  /** The cursor over point `i` hits `i` when every other point is further
      than half a point size from it along the first axis. */
  lemma HitWhenApart(data: seq<Point>, i: nat, size: real)
    requires i < |data| && size >= 0.0 && |data[i]| > 0
    requires forall j :: 0 <= j < |data| && j != i ==>
      |data[j]| > 0 && (data[j][0] - data[i][0] > size / 2.0 || data[j][0] - data[i][0] < -size / 2.0)
    ensures HitTest(data, data[i], size) == Some(i)
  {
    assert Near(data[i], data[i], size);
    forall j | 0 <= j < |data| && j != i
      ensures !Near(data[j], data[i], size)
    {
      var p := data[j];
      assert |p| > 0;
      assert !(-size / 2.0 <= p[0] - data[i][0] <= size / 2.0);
    }
  }

  /** A cursor further than half a point size from every point along the
      first axis hits nothing. */
  lemma MissWhenApart(data: seq<Point>, cursor: Point, size: real)
    requires |cursor| > 0
    requires forall j :: 0 <= j < |data| ==>
      |data[j]| > 0 && (data[j][0] - cursor[0] > size / 2.0 || data[j][0] - cursor[0] < -size / 2.0)
    ensures HitTest(data, cursor, size) == None
  {
    forall j | 0 <= j < |data|
      ensures !Near(data[j], cursor, size)
    {
      var p := data[j];
      assert |p| > 0;
      assert !(-size / 2.0 <= p[0] - cursor[0] <= size / 2.0);
    }
  }

  /** Shift-click on point `i`: `i` changes membership, every other index
      keeps its own. */
  function Toggle(s: set<nat>, i: nat): (r: set<nat>)
    ensures i in r <==> i !in s
    ensures forall j :: j != i ==> (j in r <==> j in s)
    ensures i in s ==> |r| == |s| - 1
    ensures i !in s ==> |r| == |s| + 1
  {
    if i in s then s - {i} else s + {i}
  }

  /** Toggling twice restores the selection. */
  lemma ToggleTwice(s: set<nat>, i: nat)
    ensures Toggle(Toggle(s, i), i) == s
  {
  }

  /** Which points lie in the box with the two given corners. */
  type BoxRule = (Point, Point) -> set<nat>

  /** A box rule that only names points of a layer with `n` points. */
  ghost predicate BoxWithin(boxed: BoxRule, n: nat) {
    forall a, b, i :: i in boxed(a, b) ==> i < n
  }

  class PointsLayer {
    var data: seq<Point>
    var size: real
    var selected: set<nat>
    var mode: Mode
    var gesture: Gesture

    /** Selected indices name points of the layer. */
    predicate Valid()
      reads this
    {
      forall i :: i in selected ==> i < |data|
    }

    /** `Points(data, size=size)`: nothing selected, in pan/zoom mode. */
    constructor (data: seq<Point>, size: real)
      ensures this.data == data && this.size == size
      ensures selected == {} && mode == PanZoom && gesture == Idle
      ensures Valid()
    {
      this.data := data;
      this.size := size;
      selected := {};
      mode := PanZoom;
      gesture := Idle;
    }

    /** `layer.mode = m`: any gesture in progress is abandoned. */
    method SetMode(m: Mode)
      requires Valid()
      modifies this`mode, this`gesture
      ensures mode == m && gesture == Idle
      ensures Valid()
    {
      mode := m;
      gesture := Idle;
    }

    /** `layer.selected_data = s`. */
    method SetSelected(s: set<nat>)
      requires forall i :: i in s ==> i < |data|
      modifies this`selected
      ensures selected == s
      ensures Valid()
    {
      selected := s;
    }

    /** A mouse press at `cursor`, where `hit` is the point under the
        cursor, if any.  Pan/zoom: nothing happens.  Add: the gesture starts.
        Select: a press on a point selects exactly that point, or with shift
        toggles it; a press on empty space clears the selection and starts a
        drag box. */
    method Press(cursor: Point, shift: bool, hit: Option<nat>)
      requires Valid()
      requires hit.Some? ==> hit.value < |data|
      modifies this`selected, this`gesture
      ensures Valid()
      ensures old(mode) == PanZoom ==> selected == old(selected) && gesture == old(gesture)
      ensures mode == Add ==> selected == old(selected) && gesture == Pressed(cursor, None, None)
      ensures mode == Select ==> gesture == Pressed(cursor, hit, None)
      ensures mode == Select ==>
        match hit
        case Some(i) => selected == if shift then Toggle(old(selected), i) else if i in old(selected) then old(selected) else {i}
        case None => selected == {}
    {
      match mode
      case PanZoom =>
      case Add =>
        gesture := Pressed(cursor, None, None);
      case Select =>
        match hit {
          case Some(i) =>
            // a plain press keeps a selection that holds i, so that it can be dragged
            selected := if shift then Toggle(selected, i) else if i in selected then selected else {i};
          case None =>
            selected := {};
        }
        gesture := Pressed(cursor, hit, None);
    }

    /** A mouse move to `cursor`; while a button is held (`dragging`) after
        a press, the gesture records the drag. */
    method Move(cursor: Point, dragging: bool)
      requires Valid()
      modifies this`gesture
      ensures Valid()
      ensures gesture == if mode != PanZoom && dragging && old(gesture).Pressed?
        then old(gesture).(dragTo := Some(cursor)) else old(gesture)
    {
      if mode != PanZoom && dragging && gesture.Pressed? {
        gesture := gesture.(dragTo := Some(cursor));
      }
    }

    /** A mouse release at `cursor`, ending the gesture; `boxed(a, b)` is
        the set of points inside the box with corners `a` and `b`.  Add: a
        press that was not dragged appends the release position as a new
        last point.  Select: a drag that started on empty space selects
        exactly the points in the box it spanned. */
    method Release(cursor: Point, boxed: BoxRule)
      requires Valid() && BoxWithin(boxed, |data|)
      modifies this`data, this`selected, this`gesture
      ensures Valid()
      ensures old(mode) == PanZoom ==> data == old(data) && selected == old(selected) && gesture == old(gesture)
      ensures mode != PanZoom ==> gesture == Idle
      ensures mode == Add ==> selected == old(selected)
      ensures mode == Add ==> (data ==
        if old(gesture).Pressed? && old(gesture).dragTo.None? then old(data) + [cursor] else old(data))
      ensures mode == Select ==> data == old(data)
      ensures mode == Select ==> (selected ==
        if old(gesture).Pressed? && old(gesture).hit.None? && old(gesture).dragTo.Some?
        then boxed(old(gesture).at, old(gesture).dragTo.value)
        else old(selected))
    {
      match mode
      case PanZoom =>
      case Add =>
        if gesture.Pressed? && gesture.dragTo.None? {
          data := data + [cursor];
        }
        gesture := Idle;
      case Select =>
        if gesture.Pressed? && gesture.hit.None? && gesture.dragTo.Some? {
          selected := boxed(gesture.at, gesture.dragTo.value);
        }
        gesture := Idle;
    }
  }

  /** A press and release at the same place with no move in between. */
  method Click(layer: PointsLayer, cursor: Point, shift: bool, hit: Option<nat>, boxed: BoxRule)
    requires layer.Valid() && BoxWithin(boxed, |layer.data|)
    requires hit.Some? ==> hit.value < |layer.data|
    modifies layer`data, layer`selected, layer`gesture
    ensures layer.Valid() && layer.mode == old(layer.mode)
    ensures layer.mode == PanZoom ==> layer.data == old(layer.data) && layer.selected == old(layer.selected)
    ensures layer.mode == Add ==> layer.data == old(layer.data) + [cursor] && layer.selected == old(layer.selected)
    ensures layer.mode == Select ==> layer.data == old(layer.data)
    ensures layer.mode == Select ==>
      match hit
      case Some(i) => layer.selected == if shift then Toggle(old(layer.selected), i) else if i in old(layer.selected) then old(layer.selected) else {i}
      case None => layer.selected == {}
  {
    layer.Press(cursor, shift, hit);
    layer.Release(cursor, boxed);
  }

  /** The geometric rules the scenarios below use: `HitTest` for the point
      under the cursor, `BoxSelect` for the points inside a drag box. */
  method Geometry(layer: PointsLayer, cursor: Point) returns (hit: Option<nat>, boxed: BoxRule)
    ensures hit == HitTest(layer.data, cursor, layer.size)
    ensures hit.Some? ==> hit.value < |layer.data|
    ensures BoxWithin(boxed, |layer.data|)
    ensures forall a, b :: boxed(a, b) == BoxSelect(layer.data, a, b)
  {
    var pts := layer.data;
    hit := HitTest(pts, cursor, layer.size);
    boxed := (a, b) => BoxSelect(pts, a, b);
  }

  /** The 2-D layer the tests start from. */
  method Known2D() returns (layer: PointsLayer)
    ensures fresh(layer) && layer.Valid()
    ensures layer.data == [[1.0, 3.0], [8.0, 4.0], [10.0, 10.0], [15.0, 4.0]]
    ensures layer.size == 1.0 && layer.selected == {} && layer.mode == PanZoom && layer.gesture == Idle
  {
    layer := new PointsLayer([[1.0, 3.0], [8.0, 4.0], [10.0, 10.0], [15.0, 4.0]], 1.0);
  }

  /** The 3-D layer the tests start from. */
  method Known3D() returns (layer: PointsLayer)
    ensures fresh(layer) && layer.Valid()
    ensures layer.data == [[1.0, 2.0, 3.0], [8.0, 6.0, 4.0], [10.0, 5.0, 10.0], [15.0, 8.0, 4.0]]
    ensures layer.size == 1.0 && layer.selected == {} && layer.mode == PanZoom && layer.gesture == Idle
  {
    layer := new PointsLayer([[1.0, 2.0, 3.0], [8.0, 6.0, 4.0], [10.0, 5.0, 10.0], [15.0, 8.0, 4.0]], 1.0);
  }

  /** Clicking in pan/zoom mode, also after a switch from add or select,
      neither adds nor selects. */
  method PanZoomClick(previous: Mode) returns (count: nat, selection: set<nat>)
    ensures count == 4 && selection == {}
  {
    var layer := Known2D();
    layer.SetMode(previous);
    layer.SetMode(PanZoom);
    var hit, boxed := Geometry(layer, layer.data[0]);
    Click(layer, layer.data[0], false, hit, boxed);
    count, selection := |layer.data|, layer.selected;
  }

  /** Clicking on empty space in add mode appends the click position. */
  method AddPoint() returns (count: nat, last: Point)
    ensures count == 5 && last == [20.0, 30.0]
  {
    var layer := Known2D();
    layer.SetMode(Add);
    var hit, boxed := Geometry(layer, [20.0, 30.0]);
    Click(layer, [20.0, 30.0], false, hit, boxed);
    count, last := |layer.data|, layer.data[|layer.data| - 1];
  }

  /** The same in 3-D. */
  method AddPoint3D() returns (count: nat, last: Point)
    ensures count == 5 && last == [4.0, 5.0, 6.0]
  {
    var layer := Known3D();
    layer.SetMode(Add);
    var hit, boxed := Geometry(layer, [4.0, 5.0, 6.0]);
    Click(layer, [4.0, 5.0, 6.0], false, hit, boxed);
    count, last := |layer.data|, layer.data[|layer.data| - 1];
  }

  /** Press, drag and release in add mode adds nothing. */
  method DragInAddMode() returns (count: nat)
    ensures count == 4
  {
    var layer := Known2D();
    layer.SetMode(Add);
    var hit, boxed := Geometry(layer, [20.0, 30.0]);
    layer.Press([20.0, 30.0], false, hit);
    layer.Move([40.0, 60.0], true);
    layer.Release([40.0, 60.0], boxed);
    count := |layer.data|;
  }

  /** A plain click on a point that is not selected selects exactly that point,
      and one on a selected point keeps the selection; a shift-click toggles it and
      keeps the rest. */
  method ClickOnPoint(before: set<nat>, i: nat, shift: bool) returns (selection: set<nat>)
    requires i < 4 && forall j :: j in before ==> j < 4
    ensures shift ==> selection == Toggle(before, i)
    ensures !shift && i !in before ==> selection == {i}
    ensures !shift && i in before ==> selection == before
  {
    var layer := Known2D();
    layer.SetMode(Select);
    layer.SetSelected(before);
    HitWhenApart(layer.data, i, 1.0);
    var hit, boxed := Geometry(layer, layer.data[i]);
    Click(layer, layer.data[i], shift, hit, boxed);
    selection := layer.selected;
  }

  /** The same in 3-D. */
  method ClickOnPoint3D(before: set<nat>, i: nat, shift: bool) returns (selection: set<nat>)
    requires i < 4 && forall j :: j in before ==> j < 4
    ensures shift ==> selection == Toggle(before, i)
    ensures !shift && i !in before ==> selection == {i}
    ensures !shift && i in before ==> selection == before
  {
    var layer := Known3D();
    layer.SetMode(Select);
    layer.SetSelected(before);
    HitWhenApart(layer.data, i, 1.0);
    var hit, boxed := Geometry(layer, layer.data[i]);
    Click(layer, layer.data[i], shift, hit, boxed);
    selection := layer.selected;
  }

  /** A click on empty space in select mode leaves nothing selected. */
  method ClickOnEmpty(before: set<nat>) returns (selection: set<nat>)
    requires forall j :: j in before ==> j < 4
    ensures selection == {}
  {
    var layer := Known2D();
    layer.SetMode(Select);
    layer.SetSelected(before);
    MissWhenApart(layer.data, [20.0, 30.0], 1.0);
    var hit, boxed := Geometry(layer, [20.0, 30.0]);
    Click(layer, [20.0, 30.0], false, hit, boxed);
    selection := layer.selected;
  }

  /** The same in 3-D. */
  method ClickOnEmpty3D(before: set<nat>) returns (selection: set<nat>)
    requires forall j :: j in before ==> j < 4
    ensures selection == {}
  {
    var layer := Known3D();
    layer.SetMode(Select);
    layer.SetSelected(before);
    MissWhenApart(layer.data, [4.0, 5.0, 6.0], 1.0);
    var hit, boxed := Geometry(layer, [4.0, 5.0, 6.0]);
    Click(layer, [4.0, 5.0, 6.0], false, hit, boxed);
    selection := layer.selected;
  }

  /** Press at `start`, where no point is (`hit` is none), drag to `end`,
      release there. */
  method DragSelect(layer: PointsLayer, start: Point, end: Point, hit: Option<nat>, boxed: BoxRule)
    requires layer.Valid() && layer.mode == Select && BoxWithin(boxed, |layer.data|) && hit.None?
    modifies layer`data, layer`selected, layer`gesture
    ensures layer.Valid() && layer.data == old(layer.data)
    ensures layer.selected == boxed(start, end)
  {
    layer.Press(start, false, hit);
    layer.Move(start, true);
    layer.Move(end, true);
    layer.Release(end, boxed);
  }

  /** A drag box from (20, 30) to (0, 0) spans all four points. */
  method DragBoxAll() returns (selection: set<nat>)
    ensures selection == {0, 1, 2, 3}
  {
    var layer := Known2D();
    layer.SetMode(Select);
    var hit, boxed := Geometry(layer, [20.0, 30.0]);
    MissWhenApart(layer.data, [20.0, 30.0], 1.0);
    DragSelect(layer, [20.0, 30.0], [0.0, 0.0], hit, boxed);
    selection := layer.selected;
    KnownBoxes(layer.data);
  }

  /** A drag box from (20, 30) to (50, 60) spans none of them. */
  method DragBoxNone() returns (selection: set<nat>)
    ensures selection == {}
  {
    var layer := Known2D();
    layer.SetMode(Select);
    var hit, boxed := Geometry(layer, [20.0, 30.0]);
    MissWhenApart(layer.data, [20.0, 30.0], 1.0);
    DragSelect(layer, [20.0, 30.0], [50.0, 60.0], hit, boxed);
    selection := layer.selected;
    KnownBoxes(layer.data);
  }

  /** The two drag boxes of the tests, over the 2-D test layer. */
  lemma KnownBoxes(data: seq<Point>)
    requires data == [[1.0, 3.0], [8.0, 4.0], [10.0, 10.0], [15.0, 4.0]]
    ensures BoxSelect(data, [20.0, 30.0], [0.0, 0.0]) == {0, 1, 2, 3}
    ensures BoxSelect(data, [20.0, 30.0], [50.0, 60.0]) == {}
  {
    forall i | 0 <= i < 4
      ensures InBox(data[i], [20.0, 30.0], [0.0, 0.0])
      ensures !InBox(data[i], [20.0, 30.0], [50.0, 60.0])
    {
      assert data[i][0] < Min(20.0, 50.0);
    }
    BoxSelectAllOrNone(data, [20.0, 30.0], [0.0, 0.0]);
    BoxSelectAllOrNone(data, [20.0, 30.0], [50.0, 60.0]);
    assert forall i :: i in BoxSelect(data, [20.0, 30.0], [0.0, 0.0]) <==> i in {0, 1, 2, 3};
  }
}
