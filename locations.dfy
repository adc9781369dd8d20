/** A map layer of location pins with hover and selection popups (lib/locations.ts). */
module Locations {
  import opened Common
  import opened Popup

  /** A call of one of the layer's callbacks. `onLeave` is handed whatever id was current,
      which may be `undefined`. */
  datatype Callback = Entered(id: string) | Left(left: JsId) | Clicked(id: string)

  /** The id a feature's popups are filed under: `feature.properties.id ?? null`. */
  function FeatureKey(f: Feature): (r: JsId)
    ensures r.Truthy() <==> f.id.Some? && f.id.value != ""
    ensures r.Truthy() ==> r.Key() == f.id.value
  {
    OrNull(f.id)
  }

  /** Whether `f` is a point feature filed under `key`. */
  predicate PointUnder(f: Feature, key: string)
  {
    FeatureKey(f).Truthy() && f.id.value == key && f.geometry.Point?
  }

  /** The last point feature of `fs` filed under `key`: its popup is the one a `load` over
      `fs` leaves under that key. */
  function LastPoint(fs: seq<Feature>, key: string): (r: Option<Feature>)
    ensures r.None? <==> forall i :: 0 <= i < |fs| ==> !PointUnder(fs[i], key)
    ensures r.Some? ==>
      && PointUnder(r.value, key)
      && exists i :: 0 <= i < |fs| && fs[i] == r.value && forall j :: i < j < |fs| ==> !PointUnder(fs[j], key)
  {
    if fs == [] then None
    else if PointUnder(fs[|fs| - 1], key) then Some(fs[|fs| - 1])
    else
      var r := LastPoint(fs[..|fs| - 1], key);
      assert forall i :: 0 <= i < |fs| - 1 ==> fs[..|fs| - 1][i] == fs[i];
      r
  }

  /** The keys of the features of `fs` with a truthy id. */
  function LoadedKeys(fs: seq<Feature>): set<string>
  {
    if fs == [] then {}
    else LoadedKeys(fs[..|fs| - 1]) + (if FeatureKey(fs[|fs| - 1]).Truthy() then {fs[|fs| - 1].id.value} else {})
  }

  /** The containers after the `load` loop over `fs` has run on containers `v`, with
      `shown` saying whether popups are static. */
  function LoadView(v: map<string, ContainerState>, fs: seq<Feature>, shown: bool): map<string, ContainerState>
  {
    if fs == [] then v
    else
      var before := LoadView(v, fs[..|fs| - 1], shown);
      var f := fs[|fs| - 1];
      if FeatureKey(f).Truthy() then before[f.id.value := AfterLoad(StateUnder(before, f.id.value), f, shown)]
      else before
  }

  /** A `load` creates containers exactly under the truthy keys of its features. */
  lemma {:induction false} LoadViewKeys(v: map<string, ContainerState>, fs: seq<Feature>, shown: bool)
    ensures LoadView(v, fs, shown).Keys == v.Keys + LoadedKeys(fs)
  {
    if fs != [] {
      LoadViewKeys(v, fs[..|fs| - 1], shown);
    }
  }

  /** A container under a key no feature has is left as it was. */
  lemma {:induction false} LoadViewElsewhere(v: map<string, ContainerState>, fs: seq<Feature>, shown: bool, k: string)
    requires k !in LoadedKeys(fs)
    ensures k in LoadView(v, fs, shown) <==> k in v
    ensures k in v ==> LoadView(v, fs, shown)[k] == v[k]
  {
    if fs != [] {
      LoadViewElsewhere(v, fs[..|fs| - 1], shown, k);
    }
  }

  /** A `load` never touches a hover flag, and sets the selection flag of every loaded key
      exactly when popups are static. */
  lemma {:induction false} LoadViewFlags(v: map<string, ContainerState>, fs: seq<Feature>, shown: bool, k: string)
    ensures StateUnder(LoadView(v, fs, shown), k).visibleDynamic == StateUnder(v, k).visibleDynamic
    ensures StateUnder(LoadView(v, fs, shown), k).visibleStatic ==
      ((shown && k in LoadedKeys(fs)) || StateUnder(v, k).visibleStatic)
  {
    if fs != [] {
      LoadViewFlags(v, fs[..|fs| - 1], shown, k);
    }
  }

  /** The popup under a key is that of the last point feature filed under it, placed at its
      position with its title and visible as the flags say. */
  lemma {:induction false} LoadViewLastPoint(v: map<string, ContainerState>, fs: seq<Feature>, shown: bool, k: string)
    requires LastPoint(fs, k).Some?
    ensures k in LoadView(v, fs, shown)
    ensures var s, f := LoadView(v, fs, shown)[k], LastPoint(fs, k).value;
      s.popup == Some(PopupView(f.geometry.at, f.title, s.visibleDynamic || s.visibleStatic))
  {
    var f := fs[|fs| - 1];
    if !PointUnder(f, k) {
      LoadViewLastPoint(v, fs[..|fs| - 1], shown, k);
    }
  }

  /** Without a point feature under a key, its container keeps its popup's presence, place
      and text. */
  lemma {:induction false} LoadViewNoPoint(v: map<string, ContainerState>, fs: seq<Feature>, shown: bool, k: string)
    requires LastPoint(fs, k).None?
    ensures var before, after := StateUnder(v, k).popup, StateUnder(LoadView(v, fs, shown), k).popup;
      && (after.Some? <==> before.Some?)
      && (before.Some? ==> after.value.at == before.value.at && after.value.html == before.value.html)
  {
    if fs != [] {
      assert LastPoint(fs[..|fs| - 1], k).None?;
      LoadViewNoPoint(v, fs[..|fs| - 1], shown, k);
    }
  }

  /** Moves longitude `x` by whole turns until it lies within half a turn of the pointer's
      longitude `lng`, so the popup sits over the copy of the world being pointed at. */
  method WrapLongitude(x: real, lng: real) returns (r: real, ghost turns: int)
    ensures -180.0 <= lng - r <= 180.0
    ensures r == x + 360.0 * turns as real
    ensures -180.0 <= lng - x <= 180.0 ==> r == x
  {
    r, turns := x, 0;
    while !(-180.0 <= lng - r <= 180.0)
      invariant r == x + 360.0 * turns as real
      invariant -180.0 <= lng - x <= 180.0 ==> r == x
      decreases (if lng > r then lng - r else r - lng).Floor
    {
      if lng > r {
        r, turns := r + 360.0, turns + 1;
      } else {
        r, turns := r - 360.0, turns - 1;
      }
    }
  }

  /** The handlers of one locations layer and the hover state they share. */
  class LocationsLayer {
    const manager: PopupManager
    const features: seq<Feature>
    const staticPopups: bool
    const hasOnEnter: bool
    const hasOnLeave: bool
    const hasOnClick: bool
    /** `currentFeatureId`, `undefined` until the first hover. */
    var currentId: JsId
    /** `currentFeatureCoordinates`, `undefined` until the first hover. */
    var currentCoordinates: Option<Coord>
    var pointerCursor: bool
    var callbacks: seq<Callback>

    ghost predicate Valid()
      reads manager, manager.popups.Values
    {
      manager.Valid()
    }

    constructor (manager: PopupManager, features: seq<Feature>, staticPopups: bool,
                 hasOnEnter: bool, hasOnLeave: bool, hasOnClick: bool)
      requires manager.Valid()
      ensures Valid()
      ensures this.manager == manager && this.features == features && this.staticPopups == staticPopups
      ensures this.hasOnEnter == hasOnEnter && this.hasOnLeave == hasOnLeave && this.hasOnClick == hasOnClick
      ensures currentId == Undefined && currentCoordinates == None && !pointerCursor && callbacks == []
    {
      this.manager, this.features, this.staticPopups := manager, features, staticPopups;
      this.hasOnEnter, this.hasOnLeave, this.hasOnClick := hasOnEnter, hasOnLeave, hasOnClick;
      currentId, currentCoordinates, pointerCursor, callbacks := Undefined, None, false, [];
    }

    /** One turn of the `load` loop for a feature with a truthy id: the container under its
        key, found or created, is loaded with it as `AfterLoad` says, and no other changes. */
    method LoadFeature(f: Feature)
      requires Valid() && FeatureKey(f).Truthy()
      modifies manager`popups, manager.popups.Values
      ensures Valid() && f.id.value in manager.popups
      ensures manager.popups == old(manager.popups)[f.id.value := manager.popups[f.id.value]]
      ensures f.id.value in old(manager.popups) ==> manager.popups[f.id.value] == old(manager.popups[f.id.value])
      ensures f.id.value !in old(manager.popups) ==> fresh(manager.popups[f.id.value])
      ensures manager.View() ==
        old(manager.View())[f.id.value := AfterLoad(StateUnder(old(manager.View()), f.id.value), f, staticPopups)]
      ensures Placed(f)
      ensures f.geometry.Point? ==>
        manager.PopupUnder(f.id.value) == Some(PopupView(f.geometry.at, f.title, manager.popups[f.id.value].Visible()))
      ensures manager.Dynamic(f.id.value) == old(manager.Dynamic(f.id.value))
      ensures manager.Static(f.id.value) == (staticPopups || old(manager.Static(f.id.value)))
      ensures !f.geometry.Point? ==> (manager.PopupUnder(f.id.value).Some? <==> old(manager.PopupUnder(f.id.value)).Some?)
      ensures !f.geometry.Point? && old(manager.PopupUnder(f.id.value)).Some? ==>
        manager.PopupUnder(f.id.value) ==
          Some(old(manager.PopupUnder(f.id.value)).value.(visible := manager.popups[f.id.value].Visible()))
      ensures !staticPopups ==> forall k :: manager.Static(k) == old(manager.Static(k))
    {
      var p := manager.LoadPopup(FeatureKey(f), f, staticPopups);
      assert p.State() == manager.View()[f.id.value];
      forall k | k in old(manager.popups) && k != f.id.value
        ensures manager.popups[k].visibleStatic == old(manager.popups[k].visibleStatic)
      {
        assert manager.View()[k] == old(manager.View())[k];
      }
    }

    /** The `load` handler's loop, proved against `LoadView`: the containers end as the loop
        over the features leaves them, and a container is only ever created, never replaced. */
    method Load()
      requires Valid()
      modifies manager`popups, manager.popups.Values
      ensures Valid()
      ensures manager.View() == LoadView(old(manager.View()), features, staticPopups)
      ensures forall k :: k in old(manager.popups) ==> k in manager.popups && manager.popups[k] == old(manager.popups[k])
      ensures forall k :: k in manager.popups && k !in old(manager.popups) ==> fresh(manager.popups[k])
    {
      var i := 0;
      while i < |features|
        invariant 0 <= i <= |features|
        invariant Valid()
        invariant manager.View() == LoadView(old(manager.View()), features[..i], staticPopups)
        invariant forall k :: k in old(manager.popups) ==> k in manager.popups && manager.popups[k] == old(manager.popups[k])
        invariant forall k :: k in manager.popups && k !in old(manager.popups) ==> fresh(manager.popups[k])
      {
        assert features[..i + 1][..i] == features[..i];
        if FeatureKey(features[i]).Truthy() {
          LoadFeature(features[i]);
        }
        i := i + 1;
      }
      assert features[..i] == features;
    }

    /** A loaded feature: its container exists, holds a popup when the feature is a point, and
        is marked shown when the popups are static. */
    ghost predicate Placed(f: Feature)
      requires FeatureKey(f).Truthy()
      reads manager, manager.popups.Values
    {
      var key := f.id.value;
      && key in manager.popups
      && (f.geometry.Point? ==> manager.popups[key].popup.Some?)
      && (staticPopups ==> manager.popups[key].visibleStatic)
    }

    /** The popup of the current feature, when its id is truthy, loses its hover. */
    method ClearHover()
      requires Valid()
      modifies manager`popups, manager.popups.Values
      ensures Valid()
      ensures currentId.Truthy() ==> !manager.Dynamic(currentId.s)
      ensures manager.Kept(if currentId.Truthy() then {currentId.s} else {}) && manager.StaticKept()
    {
      if currentId.Truthy() {
        manager.SetDynamic(currentId, false);
      }
    }

    /** `f` becomes the current feature; when its id is truthy its popup gains the hover and
        `onEnter` hears of it. */
    method TakeHover(f: Feature)
      requires Valid()
      modifies this`currentId, this`callbacks, manager`popups, manager.popups.Values
      ensures Valid()
      ensures currentId == FeatureKey(f)
      ensures currentId.Truthy() ==> manager.Dynamic(currentId.s)
      ensures callbacks == old(callbacks) + (if currentId.Truthy() && hasOnEnter then [Entered(currentId.s)] else [])
      ensures manager.Kept(if currentId.Truthy() then {currentId.s} else {}) && manager.StaticKept()
    {
      var id := FeatureKey(f);
      if id.Truthy() {
        manager.SetDynamic(id, true);
        if hasOnEnter {
          callbacks := callbacks + [Entered(id.s)];
        }
      }
      currentId := id;
    }

    /** The hover passes from the current feature to `f`: the previous popup (when its id is
        truthy) loses its hover, `f`'s popup (when its id is truthy) gains it and `onEnter`
        hears of it. */
    method PassHover(f: Feature)
      requires Valid()
      modifies this`currentId, this`callbacks, manager`popups, manager.popups.Values
      ensures Valid()
      ensures currentId == FeatureKey(f)
      ensures currentId.Truthy() ==> manager.Dynamic(currentId.s)
      ensures old(currentId).Truthy() && old(currentId) != currentId ==> !manager.Dynamic(old(currentId).s)
      ensures callbacks == old(callbacks) + (if currentId.Truthy() && hasOnEnter then [Entered(currentId.s)] else [])
      ensures manager.Kept({old(currentId).Key(), currentId.Key()}) && manager.StaticKept()
    {
      ghost var previous := currentId;
      ClearHover();
      label Cleared:
      TakeHover(f);
      ghost var keys := {previous.Key(), currentId.Key()};
      forall k | k in old(manager.popups) && k !in keys
        ensures manager.popups[k].Same()
      {
        assert manager.popups[k] == old@Cleared(manager.popups[k]) == old(manager.popups[k]);
        assert manager.popups[k].Same@Cleared();
      }
    }

    /** The `mousemove` handler, installed only without static popups: on a point at new
        coordinates the hover passes to this feature; anything else changes nothing. */
    method MouseMove(f: Feature, lng: real)
      requires Valid() && !staticPopups
      modifies this`currentId, this`currentCoordinates, this`pointerCursor, this`callbacks
      modifies manager`popups, manager.popups.Values
      ensures Valid()
      ensures !f.geometry.Point? || old(currentCoordinates) == Some(f.geometry.at) ==>
        unchanged(this) && manager.Kept({})
      ensures manager.StaticKept()
      ensures f.geometry.Point? && old(currentCoordinates) != Some(f.geometry.at) ==>
        && currentCoordinates == Some(f.geometry.at) && pointerCursor
        && currentId == FeatureKey(f)
        && (currentId.Truthy() ==> manager.Dynamic(currentId.s))
        && (old(currentId).Truthy() && old(currentId) != currentId ==> !manager.Dynamic(old(currentId).s))
        && callbacks == old(callbacks) + (if currentId.Truthy() && hasOnEnter then [Entered(currentId.s)] else [])
        && manager.Kept({old(currentId).Key(), currentId.Key()})
    {
      if f.geometry.Point? {
        var at := f.geometry.at;
        if currentCoordinates != Some(at) {
          currentCoordinates := Some(at);
          pointerCursor := true;
          var wrapped, turns := WrapLongitude(at.x, lng);
          PassHover(f);
        }
      }
    }

    /** The `mouseleave` handler: the current id's popup loses its hover (an id that is
        `undefined` or `null` files a container under "undefined" or "null"), the hover state
        is forgotten and `onLeave` hears the id that was current. */
    method MouseLeave()
      requires Valid() && !staticPopups
      modifies this`currentId, this`currentCoordinates, this`pointerCursor, this`callbacks
      modifies manager`popups, manager.popups.Values
      ensures Valid()
      ensures !manager.Dynamic(old(currentId).Key()) && old(currentId).Key() in manager.popups
      ensures currentId == Undefined && currentCoordinates == None && !pointerCursor
      ensures callbacks == old(callbacks) + (if hasOnLeave then [Left(old(currentId))] else [])
      ensures manager.Kept({old(currentId).Key()}) && manager.StaticKept()
    {
      var featureId := currentId;
      manager.SetDynamic(featureId, false);
      pointerCursor := false;
      currentId, currentCoordinates := Undefined, None;
      if hasOnLeave {
        callbacks := callbacks + [Left(featureId)];
      }
    }

    /** The `click` handler, installed only with an `onClick`: a feature with a truthy id
        reports that id. */
    method Click(f: Feature)
      modifies this`callbacks
      ensures callbacks == old(callbacks) + ClickReport(f, hasOnClick)
    {
      var id := FeatureKey(f);
      if hasOnClick && id.Truthy() {
        callbacks := callbacks + [Clicked(id.s)];
      }
    }
  }

  /** What a click on `f` reports. */
  function ClickReport(f: Feature, hasOnClick: bool): (r: seq<Callback>)
    ensures |r| <= 1
    ensures r != [] <==> hasOnClick && f.id.Some? && f.id.value != ""
    ensures r != [] ==> r == [Clicked(f.id.value)]
  {
    var id := FeatureKey(f);
    if hasOnClick && id.Truthy() then [Clicked(id.s)] else []
  }

  /** Hovering onto a new point and leaving again leaves neither that feature's popup nor the
      previous one showing for a hover, and touches no other container. */
  method HoverThenLeave(layer: LocationsLayer, f: Feature, lng: real)
    requires layer.Valid() && !layer.staticPopups
    requires f.geometry.Point? && layer.currentCoordinates != Some(f.geometry.at)
    modifies layer`currentId, layer`currentCoordinates, layer`pointerCursor, layer`callbacks
    modifies layer.manager`popups, layer.manager.popups.Values
    ensures layer.Valid() && layer.currentId == Undefined
    ensures !layer.manager.Dynamic(FeatureKey(f).Key())
    ensures old(layer.currentId).Truthy() ==> !layer.manager.Dynamic(old(layer.currentId).s)
  {
    layer.MouseMove(f, lng);
    layer.MouseLeave();
  }
}
