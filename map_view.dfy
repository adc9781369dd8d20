/** The map component's effects: control offsets, recentring on padding changes and the
    hand-over of the active location (app/MapView.tsx). */
module MapView {
  import opened Common
  import opened Popup
  import FlyTangent

  /** The map's current projection between geographic and screen coordinates. */
  datatype Viewport = Viewport(project: Coord -> Coord, unproject: Coord -> Coord)

  /** `project` and `unproject` undo each other. */
  ghost predicate ViewportValid(v: Viewport)
  {
    && (forall c :: v.unproject(v.project(c)) == c)
    && (forall p :: v.project(v.unproject(p)) == p)
  }

  /** `offsetCoordinates`: the position that appears `offset` screen units below `at`. */
  function OffsetCoordinates(v: Viewport, at: Coord, offset: real): (r: Coord)
    requires ViewportValid(v)
    ensures v.project(r) == v.project(at).(y := v.project(at).y + offset)
  {
    var point := v.project(at);
    v.unproject(point.(y := point.y + offset))
  }

  /** A zero offset gives back the position itself. */
  lemma OffsetZero(v: Viewport, at: Coord)
    requires ViewportValid(v)
    ensures OffsetCoordinates(v, at, 0.0) == at
  {
    assert v.project(at).(y := v.project(at).y + 0.0) == v.project(at);
  }

  /** Two offsets in the same view add up. */
  lemma OffsetsAdd(v: Viewport, at: Coord, a: real, b: real)
    requires ViewportValid(v)
    ensures OffsetCoordinates(v, OffsetCoordinates(v, at, a), b) == OffsetCoordinates(v, at, a + b)
  {
    var once := OffsetCoordinates(v, at, a);
    assert v.project(once).(y := v.project(once).y + b) == v.project(at).(y := v.project(at).y + (a + b));
  }

  /** Recentring from padding `p0` to `p1` and then to `p2` lands where one recentre from `p0`
      to `p2` would, which is why the old padding is recorded after each recentre. */
  lemma RecentresAddUp(v: Viewport, center: Coord, p0: real, p1: real, p2: real)
    requires ViewportValid(v)
    ensures OffsetCoordinates(v, OffsetCoordinates(v, center, (p1 - p0) / 2.0), (p2 - p1) / 2.0)
         == OffsetCoordinates(v, center, (p2 - p0) / 2.0)
  {
    OffsetsAdd(v, center, (p1 - p0) / 2.0, (p2 - p1) / 2.0);
  }

  /** The four corners holding maplibre controls. */
  datatype Corner = TopLeft | TopRight | BottomLeft | BottomRight
  {
    predicate Top() { TopLeft? || TopRight? }
  }

  /** The id under which an active location's popup is filed. */
  function ActiveId(active: Option<Feature>): Option<JsId>
  {
    if active.Some? then Some(OrNull(active.value.id)) else None
  }

  /** What the component asks the map to do. */
  datatype ViewAction =
    | EaseTo(center: Coord, durationMs: nat)
    | FlyTo(flyCenter: Coord)
    | FlyRoute(from: Geometry, to: Coord, yOffset: real)

  /** How long the recentring animation runs, in milliseconds. */
  const RecentreMs: nat := 1000

  /** Whether a recentre happens: a truthy old padding, padding not animating, a map, and the
      map not already moving. */
  predicate Recentres(oldPaddingBottom: Option<real>, changing: bool, mapPresent: bool, moving: bool)
  {
    oldPaddingBottom.Some? && oldPaddingBottom.value != 0.0 && !changing && mapPresent && !moving
  }

  /** The move a new active location causes: none unless it is a point; along the route from
      the previous location when a route and a previous location exist, with half the bottom
      padding as screen offset; else a direct flight to the point shifted by that offset. */
  function Flight(location: Feature, previous: Option<Feature>, hasRoute: bool, paddingBottom: real, view: Viewport): (r: seq<ViewAction>)
    requires ViewportValid(view)
    ensures |r| <= 1 && (r != [] <==> location.geometry.Point?)
    ensures r != [] && hasRoute && previous.Some? ==>
      r[0] == FlyRoute(previous.value.geometry, location.geometry.at, paddingBottom / 2.0)
    ensures r != [] && !(hasRoute && previous.Some?) ==>
      r[0].FlyTo? && view.project(r[0].flyCenter).y == view.project(location.geometry.at).y + paddingBottom / 2.0
      && view.project(r[0].flyCenter).x == view.project(location.geometry.at).x
  {
    if !location.geometry.Point? then []
    else if hasRoute && previous.Some? then
      [FlyRoute(previous.value.geometry, location.geometry.at, paddingBottom / 2.0)]
    else [FlyTo(OffsetCoordinates(view, location.geometry.at, paddingBottom / 2.0))]
  }

  /** The refs and state of one map component. */
  class MapComponent {
    const registry: Registry
    const mapId: nat
    /** `mapRef.current`: set once the map is created. */
    var mapPresent: bool
    /** The popup manager created with the map. */
    var manager: PopupManager?
    /** The `oldPaddingBottom` state, `undefined` before the map is mounted. */
    var oldPaddingBottom: Option<real>
    /** `oldActiveLocationRef.current` */
    var oldActiveLocation: Option<Feature>
    /** `oldActivePopupRef.current` */
    var oldPopup: PopupContainer?
    /** `routeRef.current`: the flight controller, once a route was made. */
    var route: FlyTangent.Route?
    /** The offset style of each control corner written so far. */
    var controlOffsets: map<Corner, real>
    var actions: seq<ViewAction>

    /** The map exists exactly when its popup manager does, the registry finds that manager,
        and the popup this component holds static is one of its containers. */
    ghost predicate Valid()
      reads this, registry, manager, if manager == null then {} else manager.popups.Values
    {
      && (mapPresent <==> manager != null)
      && (manager != null ==> registry.Get(mapId) == Some(manager) && manager.mapId == mapId && manager.Valid())
      && (oldPopup != null ==> manager != null && oldPopup in manager.popups.Values)
    }

    constructor (registry: Registry, mapId: nat)
      requires mapId !in registry.managers
      ensures Valid() && this.registry == registry && this.mapId == mapId
      ensures !mapPresent && oldPaddingBottom == None && oldActiveLocation == None && oldPopup == null
      ensures route == null && controlOffsets == map[] && actions == []
    {
      this.registry, this.mapId := registry, mapId;
      mapPresent, manager, oldPaddingBottom := false, null, None;
      oldActiveLocation, oldPopup, route := None, null, null;
      controlOffsets, actions := map[], [];
    }

    /** The mount effect: creates the map (which registers its popup manager) and records the
        padding it started with. */
    method Mount(paddingBottom: real)
      requires Valid() && !mapPresent && oldPopup == null
      modifies this, registry
      ensures Valid() && mapPresent && fresh(manager) && manager.popups == map[]
      ensures oldPaddingBottom == Some(paddingBottom)
      ensures oldActiveLocation == old(oldActiveLocation) && oldPopup == null && route == old(route)
      ensures controlOffsets == old(controlOffsets) && actions == old(actions)
    {
      manager := new PopupManager(registry, mapId);
      mapPresent := true;
      oldPaddingBottom := Some(paddingBottom);
    }

    /** The control-offset effect: each corner present on the page is moved in by the padding
        on its side; absent corners keep whatever they had. */
    method ControlEffect(present: set<Corner>, paddingTop: real, paddingBottom: real)
      modifies this`controlOffsets
      ensures controlOffsets.Keys == old(controlOffsets.Keys) + present
      ensures forall c :: c in present && c.Top() ==> controlOffsets[c] == paddingTop
      ensures forall c :: c in present && !c.Top() ==> controlOffsets[c] == paddingBottom
      ensures forall c :: c in old(controlOffsets) && c !in present ==> controlOffsets[c] == old(controlOffsets[c])
    {
      if TopLeft in present {
        controlOffsets := controlOffsets[TopLeft := paddingTop];
      }
      if TopRight in present {
        controlOffsets := controlOffsets[TopRight := paddingTop];
      }
      if BottomLeft in present {
        controlOffsets := controlOffsets[BottomLeft := paddingBottom];
      }
      if BottomRight in present {
        controlOffsets := controlOffsets[BottomRight := paddingBottom];
      }
      forall c | c in present
        ensures c in controlOffsets
      {
        match c
        case TopLeft =>
        case TopRight =>
        case BottomLeft =>
        case BottomRight =>
      }
    }

    /** The padding effect, run when the bottom padding or its animating flag changed: when
        `Recentres` holds, the map eases so that its old centre moves up by half the padding
        change, and the padding becomes the recorded one; otherwise nothing happens. */
    method PaddingEffect(paddingBottom: real, changing: bool, moving: bool, center: Coord, view: Viewport)
      requires ViewportValid(view)
      modifies this`oldPaddingBottom, this`actions
      ensures Recentres(old(oldPaddingBottom), changing, mapPresent, moving) ==>
        && oldPaddingBottom == Some(paddingBottom)
        && actions == old(actions) + [EaseTo(OffsetCoordinates(view, center, (paddingBottom - old(oldPaddingBottom).value) / 2.0), RecentreMs)]
      ensures !Recentres(old(oldPaddingBottom), changing, mapPresent, moving) ==>
        oldPaddingBottom == old(oldPaddingBottom) && actions == old(actions)
    {
      if Recentres(oldPaddingBottom, changing, mapPresent, moving) {
        var offset := (paddingBottom - oldPaddingBottom.value) / 2.0;
        actions := actions + [EaseTo(OffsetCoordinates(view, center, offset), RecentreMs)];
        oldPaddingBottom := Some(paddingBottom);
      }
    }

    /** The route effect: whenever route coordinates are given and the map exists, a new
        route replaces the old one, with the default altitude and distance, and its
        constructor jumps the camera behind the route's start. */
    method RouteEffect(routeGeo: Option<FlyTangent.Geo>)
      requires routeGeo.Some? ==> FlyTangent.GeoValid(routeGeo.value)
      modifies this`route
      ensures routeGeo.Some? && mapPresent ==>
        && route != null && fresh(route) && route.geo == routeGeo.value
        && route.altitude == FlyTangent.DefaultAltitude
        && route.camera == FlyTangent.BehindStart(routeGeo.value)
        && route.actions == [FlyTangent.JumpTo(route.camera, FlyTangent.DefaultAltitude, routeGeo.value.first)]
      ensures !(routeGeo.Some? && mapPresent) ==> route == old(route)
    {
      if routeGeo.Some? && mapPresent {
        route := new FlyTangent.Route(routeGeo.value, FlyTangent.DefaultAltitude, Some(FlyTangent.DefaultDistance));
      }
    }

    /** The popup half of the active-location effect: the popup held static is released, and
        a new active location has its popup (under its id, or "null") held static instead; no
        other popup changes, and every popup keeps its hover flag. */
    method HandOver(active: Option<Feature>)
      requires Valid() && mapPresent
      modifies this`oldPopup, manager, manager.popups.Values
      ensures Valid()
      ensures old(oldPopup) != null && old(oldPopup) != oldPopup ==> !old(oldPopup).visibleStatic
      ensures active.None? ==> oldPopup == null
      ensures active.Some? ==>
        && oldPopup != null && oldPopup.visibleStatic && oldPopup.id == OrNull(active.value.id).Key()
        && oldPopup == manager.popups[OrNull(active.value.id).Key()]
      ensures manager.Kept(HeldKeys(old(oldPopup)) + IdKeys(ActiveId(active))) && manager.DynamicKept()
      ensures active.Some? && OrNull(active.value.id).Key() !in old(manager.popups) ==> !oldPopup.visibleDynamic
    {
      var next := manager.Hand(oldPopup, ActiveId(active));
      oldPopup := next;
    }

    /** The active-location effect. With a map, the popups change hands as `HandOver` says;
        a point is flown to, along the route when there is one and an earlier location,
        directly otherwise; and the location is remembered, even when it is null. */
    method ActiveLocationEffect(active: Option<Feature>, paddingBottom: real, view: Viewport)
      requires Valid() && ViewportValid(view)
      modifies this`oldPopup, this`oldActiveLocation, this`actions
      modifies manager, if manager == null then {} else manager.popups.Values
      ensures Valid()
      ensures !old(mapPresent) ==> unchanged(this) && oldActiveLocation == old(oldActiveLocation)
      ensures mapPresent ==> oldActiveLocation == active
      ensures mapPresent && old(oldPopup) != null && old(oldPopup) != oldPopup ==> !old(oldPopup).visibleStatic
      ensures mapPresent && active.None? ==> oldPopup == null && actions == old(actions)
      ensures mapPresent && active.Some? ==>
        && oldPopup != null && oldPopup.visibleStatic && oldPopup.id == OrNull(active.value.id).Key()
        && oldPopup == manager.popups[OrNull(active.value.id).Key()]
        && actions == old(actions) + Flight(active.value, old(oldActiveLocation), route != null, paddingBottom, view)
      ensures mapPresent ==> manager.Kept(HeldKeys(old(oldPopup)) + IdKeys(ActiveId(active))) && manager.DynamicKept()
      ensures mapPresent && active.Some? && OrNull(active.value.id).Key() !in old(manager.popups) ==>
        !oldPopup.visibleDynamic
    {
      if !mapPresent {
        return;
      }
      var flight: seq<ViewAction> := [];
      if active.Some? {
        flight := Flight(active.value, oldActiveLocation, route != null, paddingBottom, view);
      }
      HandOver(active);
      actions := actions + flight;
      oldActiveLocation := active;
    }
  }
}
