/**
 * The DistortableImageOverlay corner state machine: four corners held in an
 * array, the selected, edited and editing-enabled flags, the initial
 * dimensions restore returns to, and a log of the events the overlay fires.
 *
 * Corners are held as projected points (map.project and map.unproject are the
 * identity); the map's current zoom, its pixel origin and the collaborators
 * consulted by select are passed in as parameters.
 */
module Overlay {
  import opened Geometry
  import opened MatrixUtil
  import opened CornerGeometry

  /** The events fire delivers, in the order they are fired. */
  datatype Event = UpdateEvent | SelectEvent | DeselectEvent | RestoreEvent

  /** _initialDimensions: the projected map center, half the image size, and the zoom at load time. */
  datatype Dimensions = Dimensions(center: Point, offset: Point, zoom: int)

  /** n update events in a row. */
  function Updates(n: nat): (r: seq<Event>)
    ensures |r| == n && forall e :: e in r ==> e == UpdateEvent
  {
    if n == 0 then [] else Updates(n - 1) + [UpdateEvent]
  }

  /** How many of the first n corners of cs differ from those of target. */
  function DifferingBelow(cs: seq<Point>, target: seq<Point>, n: nat): (r: nat)
    requires n <= |cs| && n <= |target|
    ensures r <= n
  {
    if n == 0 then 0
    else DifferingBelow(cs, target, n - 1) + (if cs[n - 1] != target[n - 1] then 1 else 0)
  }

  /** No corner among the first n differs exactly when those corners already agree. */
  lemma {:induction false} DifferingBelowZero(cs: seq<Point>, target: seq<Point>, n: nat)
    requires n <= |cs| && n <= |target|
    ensures DifferingBelow(cs, target, n) == 0 <==> cs[..n] == target[..n]
    decreases n
  {
    if n > 0 {
      DifferingBelowZero(cs, target, n - 1);
      if cs[..n] == target[..n] {
        assert cs[..n - 1] == cs[..n][..n - 1] && target[..n - 1] == target[..n][..n - 1];
        assert cs[n - 1] == cs[..n][n - 1] && target[n - 1] == target[..n][n - 1];
      } else if cs[n - 1] == target[n - 1] {
        assert cs[..n] == cs[..n - 1] + [cs[n - 1]] && target[..n] == target[..n - 1] + [target[n - 1]];
      }
    }
  }

  /**
   * restore fires an update for each corner it rewrites; it fires none exactly
   * when the corners already form the initial rectangle, so a second restore
   * in a row fires only restore.
   */
  lemma RestoreUpdatesIffMoved(cs: Corners, target: Corners)
    ensures Updates(DifferingBelow(cs, target, 4)) == [] <==> cs == target
  {
    DifferingBelowZero(cs, target, 4);
    assert cs[..4] == cs && target[..4] == target;
  }

  /**
   * One step of restore: corner i is rewritten only when it differs, and one
   * update is fired for each rewrite.
   */
  lemma RestoreStep(cs: Corners, target: Corners, i: nat)
    requires i < 4
    ensures (target[..i] + cs[i..])[i := target[i]] == target[..i + 1] + cs[i + 1..]
    ensures cs[i] == target[i] ==> target[..i] + cs[i..] == target[..i + 1] + cs[i + 1..]
    ensures Updates(DifferingBelow(cs, target, i + 1))
         == Updates(DifferingBelow(cs, target, i)) + (if cs[i] != target[i] then [UpdateEvent] else [])
  {
  }

  /** layerPointToLatLng: the layer point shifted by the map's pixel origin. */
  function LayerPointsToCorners(points: map<int, Point>, pixelOrigin: Point): (r: map<int, Point>)
    ensures r.Keys == points.Keys
    ensures forall k :: k in r ==> r[k] == points[k].Add(pixelOrigin)
  {
    map k | k in points :: points[k].Add(pixelOrigin)
  }

  /** The default image size of _calculateProjectiveTransform when the element has none yet. */
  const DefaultWidth: nat := 500
  const DefaultHeight: nat := 375

  /** `offset || default`: a zero size falls back to the default. */
  function OrDefault(size: nat, default: nat): nat {
    if size == 0 then default else size
  }

  /** The corners in cartesian coordinates, relative to corner 0. */
  function Relative(cs: Corners, toCartesian: Point -> Point): Corners {
    var origin := toCartesian(cs[0]);
    [toCartesian(cs[0]).Subtract(origin), toCartesian(cs[1]).Subtract(origin),
     toCartesian(cs[2]).Subtract(origin), toCartesian(cs[3]).Subtract(origin)]
  }

  /** The image rectangle (0,0), (w,0), (0,h), (w,h). */
  function ImageRectangle(w: real, h: real): Corners {
    [Origin, Point(w, 0.0), Point(0.0, h), Point(w, h)]
  }

  /** _calculateProjectiveTransform as a value: the image rectangle onto the relative corners. */
  function ProjectiveTransform(cs: Corners, toCartesian: Point -> Point, offsetWidth: nat, offsetHeight: nat): Option<Matrix> {
    var w := OrDefault(offsetWidth, DefaultWidth) as real;
    var h := OrDefault(offsetHeight, DefaultHeight) as real;
    var r := ImageRectangle(w, h);
    var c := Relative(cs, toCartesian);
    QuadToQuad(r[0], r[1], r[2], r[3], c[0], c[1], c[2], c[3])
  }

  /** A rectangle of positive size is a non-degenerate quadruple. */
  lemma ImageRectangleNonDegenerate(w: real, h: real)
    requires w > 0.0 && h > 0.0
    ensures var r := ImageRectangle(w, h); NonDegenerate(r[0], r[1], r[2], r[3])
  {
    var r := ImageRectangle(w, h);
    assert w * h > 0.0;
    assert Cross(r[0], r[1], r[2]) == w * h;
    assert Cross(r[3], r[1], r[2]) == -(w * h);
    assert Cross(r[0], r[3], r[2]) == w * h;
    assert Cross(r[0], r[1], r[3]) == w * h;
    NonDegenerateIffNoThreeCollinear(r[0], r[1], r[2], r[3]);
  }

  /**
   * When no three of the relative corners are collinear, the transform exists,
   * is normalised, and sends the upper-left image corner to corner 0 and each
   * other image corner to the matching corner.
   */
  lemma ProjectiveTransformCorrespondence(cs: Corners, toCartesian: Point -> Point, offsetWidth: nat, offsetHeight: nat)
    requires var c := Relative(cs, toCartesian); NoThreeCollinear(c[0], c[1], c[2], c[3])
    ensures var t := ProjectiveTransform(cs, toCartesian, offsetWidth, offsetHeight);
      var w := OrDefault(offsetWidth, DefaultWidth) as real;
      var h := OrDefault(offsetHeight, DefaultHeight) as real;
      var c := Relative(cs, toCartesian);
      && t.Some? && t.value[8] == 1.0
      && Project(t.value, 0.0, 0.0) == Some(c[0]) && c[0] == Origin
      && Project(t.value, w, 0.0) == Some(c[1])
      && Project(t.value, 0.0, h) == Some(c[2])
      && Project(t.value, w, h) == Some(c[3])
  {
    var w := OrDefault(offsetWidth, DefaultWidth) as real;
    var h := OrDefault(offsetHeight, DefaultHeight) as real;
    var r := ImageRectangle(w, h);
    var c := Relative(cs, toCartesian);
    ImageRectangleNonDegenerate(w, h);
    NonDegenerateIffNoThreeCollinear(c[0], c[1], c[2], c[3]);
    OriginSourceNormalises(r[0], r[1], r[2], r[3], c[0], c[1], c[2], c[3]);
    QuadToQuadCorrespondence(r[0], r[1], r[2], r[3], c[0], c[1], c[2], c[3]);
  }

  class DistortableImageOverlay {
    var corners: array<Point>
    var selected: bool
    var edited: bool
    var editingEnabled: bool
    var initialDimensions: Dimensions
    var events: seq<Event>

    ghost predicate Valid()
      reads this
    {
      corners.Length == 4
    }

    /**
     * initialize followed by _initImageDimensions: the corners are the given
     * ones or the rectangle center -/+ offset, and the dimensions are recorded.
     */
    constructor(dims: Dimensions, given: Option<Corners>, selectedOption: bool, editing: bool)
      ensures Valid() && fresh(corners)
      ensures corners[..] == (if given.Some? then given.value else InitialRectangle(dims.center, dims.offset))
      ensures selected == selectedOption && editingEnabled == editing && !edited
      ensures initialDimensions == dims && events == []
    {
      var cs := if given.Some? then given.value else InitialRectangle(dims.center, dims.offset);
      corners := new Point[4](i requires 0 <= i < 4 => cs[i]);
      selected := selectedOption;
      editingEnabled := editing;
      edited := false;
      initialDimensions := dims;
      events := [];
    }

    /** getCorners: the current corners (as values; the array itself is not shared). */
    function GetCorners(): (r: Corners)
      requires Valid()
      reads this, corners
      ensures forall i :: 0 <= i < 4 ==> r[i] == corners[i]
    {
      corners[..]
    }

    /** getCorner. */
    function GetCorner(i: int): (r: Point)
      requires Valid() && 0 <= i < 4
      reads this, corners
      ensures r == GetCorners()[i]
    {
      corners[i]
    }

    /** getCenter: the vertex centroid. */
    function GetCenter(): (r: Point)
      requires Valid()
      reads this, corners
      ensures r == Centroid(GetCorners())
    {
      Centroid(corners[..])
    }

    /** isSelected. */
    function IsSelected(): (r: bool)
      reads this
      ensures r == selected
    {
      selected
    }

    /** setCorner: write one corner, fire update, mark edited. */
    method SetCorner(i: int, p: Point)
      requires Valid() && 0 <= i < 4
      modifies this, corners
      ensures Valid() && corners == old(corners)
      ensures corners[..] == old(corners[..])[i := p]
      ensures edited && events == old(events) + [UpdateEvent]
      ensures selected == old(selected) && editingEnabled == old(editingEnabled)
      ensures initialDimensions == old(initialDimensions)
    {
      corners[i] := p;
      events := events + [UpdateEvent];
      edited := true;
    }

    /**
     * setCorners: if any candidate fails the latitude guard, only update fires;
     * otherwise the candidates are written over corners 0, 1, ... in key order,
     * update fires and the overlay is marked edited.
     */
    method SetCorners(candidates: map<int, Point>, zoom: int)
      requires Valid() && CornerKeys(candidates)
      modifies this, corners
      ensures Valid() && corners == old(corners)
      ensures corners[..] == Committed(old(corners[..]), candidates, zoom)
      ensures edited == (old(edited) || !AnyExceeds(zoom, candidates))
      ensures events == old(events) + [UpdateEvent]
      ensures selected == old(selected) && editingEnabled == old(editingEnabled)
      ensures initialDimensions == old(initialDimensions)
    {
      for k := 0 to 4
        invariant forall j :: 0 <= j < k && j in candidates ==> !CornerExceedsMapLats(zoom, candidates[j])
      {
        if k in candidates && CornerExceedsMapLats(zoom, candidates[k]) {
          events := events + [UpdateEvent];
          return;
        }
      }
      WriteInKeyOrder(candidates);
    }

    /**
     * setCornersFromPoints: as setCorners, for layer points converted with
     * layerPointToLatLng.
     */
    method SetCornersFromPoints(points: map<int, Point>, zoom: int, pixelOrigin: Point)
      requires Valid() && CornerKeys(points)
      modifies this, corners
      ensures Valid() && corners == old(corners)
      ensures corners[..] == Committed(old(corners[..]), LayerPointsToCorners(points, pixelOrigin), zoom)
      ensures edited == (old(edited) || !AnyExceeds(zoom, LayerPointsToCorners(points, pixelOrigin)))
      ensures events == old(events) + [UpdateEvent]
      ensures selected == old(selected) && editingEnabled == old(editingEnabled)
      ensures initialDimensions == old(initialDimensions)
    {
      var converted := LayerPointsToCorners(points, pixelOrigin);
      for k := 0 to 4
        invariant forall j :: 0 <= j < k && j in converted ==> !CornerExceedsMapLats(zoom, converted[j])
      {
        if k in points {
          var corner := points[k].Add(pixelOrigin);
          if CornerExceedsMapLats(zoom, corner) {
            events := events + [UpdateEvent];
            return;
          }
        }
      }
      WriteInKeyOrder(converted);
    }

    /** The write half of the bulk setters: a running counter over the keys in order. */
    method WriteInKeyOrder(candidates: map<int, Point>)
      requires Valid() && CornerKeys(candidates)
      modifies this, corners
      ensures Valid() && corners == old(corners)
      ensures corners[..] == Overwrite(old(corners[..]), InKeyOrder(candidates))
      ensures edited && events == old(events) + [UpdateEvent]
      ensures selected == old(selected) && editingEnabled == old(editingEnabled)
      ensures initialDimensions == old(initialDimensions)
    {
      var i := 0;
      for k := 0 to 4
        invariant Valid() && corners == old(corners) && events == old(events)
        invariant selected == old(selected) && editingEnabled == old(editingEnabled)
        invariant initialDimensions == old(initialDimensions)
        invariant i == |KeyOrderBelow(candidates, k)| && i <= k
        invariant corners[..] == Overwrite(old(corners[..]), KeyOrderBelow(candidates, k))
      {
        ghost var written := KeyOrderBelow(candidates, k);
        ghost var before := corners[..];
        if k in candidates {
          assert KeyOrderBelow(candidates, k + 1) == written + [candidates[k]];
          OverwriteStep(old(corners[..]), written, candidates[k]);
          corners[i] := candidates[k];
          assert corners[..] == before[i := candidates[k]];
          i := i + 1;
        } else {
          assert KeyOrderBelow(candidates, k + 1) == written;
        }
      }
      events := events + [UpdateEvent];
      edited := true;
    }

    /**
     * scaleBy: no change at all for 0; otherwise propose every corner scaled
     * about the centroid and hand the proposal to setCorners.
     */
    method ScaleBy(s: real, zoom: int)
      requires Valid()
      modifies this, corners
      ensures Valid() && corners == old(corners)
      ensures s == 0.0 ==> corners[..] == old(corners[..]) && edited == old(edited) && events == old(events)
      ensures s != 0.0 ==>
        var proposal := ScaledCorners(old(corners[..]), s);
        && corners[..] == (if AnyExceeds(zoom, AsObject(proposal)) then old(corners[..]) else proposal)
        && edited == (old(edited) || !AnyExceeds(zoom, AsObject(proposal)))
        && events == old(events) + [UpdateEvent]
      ensures selected == old(selected) && editingEnabled == old(editingEnabled)
      ensures initialDimensions == old(initialDimensions)
    {
      var center := GetCenter();
      if s == 0.0 {
        return;
      }
      var scaled: map<int, Point> := map[];
      for i := 0 to 4
        invariant forall j :: j in scaled <==> 0 <= j < i
        invariant forall j :: 0 <= j < i ==> scaled[j] == ScaleAbout(corners[j], center, s)
      {
        scaled := scaled[i := ScaleAbout(corners[i], center, s)];
      }
      ghost var proposal := ScaledCorners(corners[..], s);
      assert scaled == AsObject(proposal);
      FullObjectInPlace(corners[..], proposal);
      SetCorners(scaled, zoom);
    }

    /**
     * rotateBy, for the angle whose cosine and sine are given: propose every
     * corner turned about the centroid and hand the proposal to setCorners.
     */
    method RotateBy(cos: real, sin: real, zoom: int)
      requires Valid()
      modifies this, corners
      ensures Valid() && corners == old(corners)
      ensures var proposal := RotatedCorners(old(corners[..]), cos, sin);
        && corners[..] == (if AnyExceeds(zoom, AsObject(proposal)) then old(corners[..]) else proposal)
        && edited == (old(edited) || !AnyExceeds(zoom, AsObject(proposal)))
      ensures events == old(events) + [UpdateEvent]
      ensures selected == old(selected) && editingEnabled == old(editingEnabled)
      ensures initialDimensions == old(initialDimensions)
    {
      var center := GetCenter();
      var turned: map<int, Point> := map[];
      for i := 0 to 4
        invariant forall j :: j in turned <==> 0 <= j < i
        invariant forall j :: 0 <= j < i ==> turned[j] == RotateAbout(corners[j], center, cos, sin)
      {
        turned := turned[i := RotateAbout(corners[i], center, cos, sin)];
      }
      ghost var proposal := RotatedCorners(corners[..], cos, sin);
      assert turned == AsObject(proposal);
      FullObjectInPlace(corners[..], proposal);
      SetCorners(turned, zoom);
    }

    /** dragBy: propose every corner moved by newPoint - formerPoint and hand it to setCorners. */
    method DragBy(formerPoint: Point, newPoint: Point, zoom: int)
      requires Valid()
      modifies this, corners
      ensures Valid() && corners == old(corners)
      ensures var proposal := DraggedCorners(old(corners[..]), formerPoint, newPoint);
        && corners[..] == (if AnyExceeds(zoom, AsObject(proposal)) then old(corners[..]) else proposal)
        && edited == (old(edited) || !AnyExceeds(zoom, AsObject(proposal)))
      ensures events == old(events) + [UpdateEvent]
      ensures selected == old(selected) && editingEnabled == old(editingEnabled)
      ensures initialDimensions == old(initialDimensions)
    {
      var delta := formerPoint.Subtract(newPoint);
      var moved: map<int, Point> := map[];
      for i := 0 to 4
        invariant forall j :: j in moved <==> 0 <= j < i
        invariant forall j :: 0 <= j < i ==> moved[j] == corners[j].Subtract(delta)
      {
        moved := moved[i := corners[i].Subtract(delta)];
      }
      ghost var proposal := DraggedCorners(corners[..], formerPoint, newPoint);
      assert forall j :: j in moved <==> j in AsObject(proposal);
      assert moved == AsObject(proposal);
      FullObjectInPlace(corners[..], proposal);
      SetCorners(moved, zoom);
    }

    /**
     * restore: rewrite, through setCorner, each corner that differs from the
     * initial rectangle; then clear edited and fire restore.
     */
    method Restore()
      requires Valid()
      modifies this, corners
      ensures Valid() && corners == old(corners)
      ensures corners[..] == InitialRectangle(initialDimensions.center, initialDimensions.offset)
      ensures !edited
      ensures events == old(events)
        + Updates(DifferingBelow(old(corners[..]), InitialRectangle(initialDimensions.center, initialDimensions.offset), 4))
        + [RestoreEvent]
      ensures selected == old(selected) && editingEnabled == old(editingEnabled)
      ensures initialDimensions == old(initialDimensions)
    {
      var target := InitialRectangle(initialDimensions.center, initialDimensions.offset);
      for i := 0 to 4
        invariant Valid() && corners == old(corners)
        invariant corners[..] == target[..i] + old(corners[..])[i..]
        invariant events == old(events) + Updates(DifferingBelow(old(corners[..]), target, i))
        invariant selected == old(selected) && editingEnabled == old(editingEnabled)
        invariant initialDimensions == old(initialDimensions)
      {
        ghost var before := corners[..];
        assert corners[i] == old(corners[..])[i];
        if target[i] != corners[i] {
          SetCorner(i, target[i]);
        }
        RestoreStep(old(corners[..]), target, i);
      }
      edited := false;
      events := events + [RestoreEvent];
    }

    /** deselect: nothing when editing is disabled; otherwise clear selected and fire deselect. */
    method Deselect()
      modifies this
      ensures editingEnabled == old(editingEnabled) && corners == old(corners)
      ensures edited == old(edited) && initialDimensions == old(initialDimensions)
      ensures selected == (old(selected) && !editingEnabled)
      ensures events == old(events) + (if editingEnabled then [DeselectEvent] else [])
    {
      if !editingEnabled {
        return;
      }
      selected := false;
      events := events + [DeselectEvent];
    }

    /**
     * _programmaticGrouping: deselect every overlay on the map. The map keeps
     * each layer once, so the collection has no repeats.
     */
    method ProgrammaticGrouping(layers: seq<DistortableImageOverlay>)
      requires forall i, j :: 0 <= i < j < |layers| ==> layers[i] != layers[j]
      modifies set l | l in layers
      ensures forall l :: l in layers ==>
        && l.editingEnabled == old(l.editingEnabled) && l.corners == old(l.corners)
        && l.edited == old(l.edited) && l.initialDimensions == old(l.initialDimensions)
        && l.selected == (old(l.selected) && !l.editingEnabled)
        && l.events == old(l.events) + (if l.editingEnabled then [DeselectEvent] else [])
    {
      for i := 0 to |layers|
        invariant forall j :: 0 <= j < |layers| ==>
          && layers[j].editingEnabled == old(layers[j].editingEnabled) && layers[j].corners == old(layers[j].corners)
          && layers[j].edited == old(layers[j].edited) && layers[j].initialDimensions == old(layers[j].initialDimensions)
        invariant forall j :: 0 <= j < i ==>
          && layers[j].selected == (old(layers[j].selected) && !layers[j].editingEnabled)
          && layers[j].events == old(layers[j].events) + (if layers[j].editingEnabled then [DeselectEvent] else [])
        invariant forall j :: i <= j < |layers| ==>
          layers[j].selected == old(layers[j].selected) && layers[j].events == old(layers[j].events)
      {
        layers[i].Deselect();
      }
    }

    /**
     * select: nothing when editing is disabled; otherwise deselect every
     * overlay on the map, select this one and fire select, and deselect it
     * again at once when its group has collected items.
     */
    method Select(layers: seq<DistortableImageOverlay>, groupHasCollected: bool)
      requires forall i, j :: 0 <= i < j < |layers| ==> layers[i] != layers[j]
      modifies this, set l | l in layers
      ensures !old(editingEnabled) ==> selected == old(selected) && events == old(events)
      ensures !old(editingEnabled) ==> forall l :: l in layers ==> l.selected == old(l.selected) && l.events == old(l.events)
      ensures old(editingEnabled) ==>
        && selected == !groupHasCollected
        && events == old(events) + (if this in layers then [DeselectEvent] else [])
                    + [SelectEvent] + (if groupHasCollected then [DeselectEvent] else [])
      ensures old(editingEnabled) ==> forall l :: l in layers && l != this ==>
        && l.selected == (old(l.selected) && !l.editingEnabled)
        && l.events == old(l.events) + (if l.editingEnabled then [DeselectEvent] else [])
      ensures editingEnabled == old(editingEnabled) && corners == old(corners)
      ensures edited == old(edited) && initialDimensions == old(initialDimensions)
      ensures forall l :: l in layers ==>
        && l.editingEnabled == old(l.editingEnabled) && l.corners == old(l.corners)
        && l.edited == old(l.edited) && l.initialDimensions == old(l.initialDimensions)
    {
      if !editingEnabled {
        return;
      }
      ProgrammaticGrouping(layers);
      selected := true;
      events := events + [SelectEvent];
      if groupHasCollected {
        Deselect();
        return;
      }
    }

    /**
     * _calculateProjectiveTransform: the corners in cartesian coordinates
     * relative to corner 0, then the projection of the image rectangle
     * (offsetWidth || 500 by offsetHeight || 375) onto them.
     */
    method CalculateProjectiveTransform(toCartesian: Point -> Point, offsetWidth: nat, offsetHeight: nat)
      returns (r: Option<Matrix>)
      requires Valid()
      ensures r == ProjectiveTransform(GetCorners(), toCartesian, offsetWidth, offsetHeight)
    {
      var offset := toCartesian(corners[0]);
      var w := if offsetWidth == 0 then DefaultWidth else offsetWidth;
      var h := if offsetHeight == 0 then DefaultHeight else offsetHeight;
      var c: seq<Point> := [];
      for j := 0 to 4
        invariant |c| == j
        invariant forall n :: 0 <= n < j ==> c[n] == toCartesian(corners[n]).Subtract(offset)
      {
        c := c + [toCartesian(corners[j]).Subtract(offset)];
      }
      assert c == Relative(corners[..], toCartesian);
      r := General2DProjection(
        0.0, 0.0, c[0].x, c[0].y,
        w as real, 0.0, c[1].x, c[1].y,
        0.0, h as real, c[2].x, c[2].y,
        w as real, h as real, c[3].x, c[3].y);
    }
  }
}
