/** The application state that ties layers, locations and content tabs together (app/App.tsx),
    from the moment the configuration has been fetched. */
module App {
  import opened Common

  datatype LayerKind = PointLayer | OverlayLayer | BuildingsLayer | LineLayer | LocationsLayer | OtherLayer(name: string)

  /** A layer of the view's configuration. */
  datatype Layer = Layer(id: string, kind: LayerKind, visible: bool, color: string, title: Option<string>)

  /** A location collection: its own `properties.title` and its features. */
  datatype Collection = Collection(title: Option<string>, features: seq<Feature>)

  /** `config.view.app.binding`: what the content tabs are bound to. */
  datatype Binding = LocationBinding | OverlayBinding | NoBinding

  /** The fetched configuration, with the selected view's layers and app settings. */
  datatype Config = Config(
    layers: seq<Layer>,
    binding: Binding,
    route: Option<string>,
    lines: seq<Feature>,
    locations: seq<(string, Collection)>,
    overlays: seq<Feature>)

  /** A call on the map handle. */
  datatype LayerRequest = VisibilityRequest(layerId: string, visible: bool) | OpacityRequest(layerId: string, opacity: Option<real>)

  // ---------------------------------------------------------------------------
  // Layers

  /** `config.view.layers.find((layer) => layer.id === id)` */
  function LayerWithId(layers: seq<Layer>, id: string): (r: Option<Layer>)
    ensures r.None? <==> forall i :: 0 <= i < |layers| ==> layers[i].id != id
    ensures r.Some? ==> r.value in layers && r.value.id == id
  {
    if |layers| == 0 then None
    else if layers[0].id == id then Some(layers[0])
    else LayerWithId(layers[1..], id)
  }

  /** Every key of a visibility dictionary names a configured layer, as the lookups that read
      `layer.type` need. */
  predicate KeysAreLayers(vis: seq<(string, bool)>, layers: seq<Layer>)
  {
    forall i :: 0 <= i < |vis| ==> LayerWithId(layers, vis[i].0).Some?
  }

  predicate IsOverlayId(layers: seq<Layer>, id: string)
  {
    var l := LayerWithId(layers, id);
    l.Some? && l.value.kind == OverlayLayer
  }

  /** The initial visibility dictionary: one entry per non-point layer id, in order of first
      appearance. */
  function VisibilityFor(layers: seq<Layer>): (r: seq<(string, bool)>)
    ensures UniqueKeys(r)
  {
    if |layers| == 0 then []
    else
      var prev := VisibilityFor(layers[..|layers| - 1]);
      var l := layers[|layers| - 1];
      if l.kind == PointLayer then prev else Put(prev, l.id, l.visible)
  }

  /** Reference: the `visible` of the last non-point layer with this id. */
  function LastVisibility(layers: seq<Layer>, id: string): Option<bool>
  {
    if |layers| == 0 then None
    else
      var l := layers[|layers| - 1];
      if l.kind != PointLayer && l.id == id then Some(l.visible) else LastVisibility(layers[..|layers| - 1], id)
  }

  /** The initial visibility of a layer id is that of the last non-point layer with the id. */
  lemma {:induction false} VisibilityForLookup(layers: seq<Layer>, id: string)
    ensures Lookup(VisibilityFor(layers), id) == LastVisibility(layers, id)
  {
    if |layers| > 0 {
      VisibilityForLookup(layers[..|layers| - 1], id);
    }
  }

  /** An id has a visibility entry exactly when some non-point layer carries it. */
  lemma {:induction false} LastVisibilityExists(layers: seq<Layer>, id: string)
    ensures LastVisibility(layers, id).Some? <==>
      exists i :: 0 <= i < |layers| && layers[i].kind != PointLayer && layers[i].id == id
  {
    if |layers| > 0 {
      var prefix := layers[..|layers| - 1];
      LastVisibilityExists(prefix, id);
      if exists i :: 0 <= i < |prefix| && prefix[i].kind != PointLayer && prefix[i].id == id {
        var i :| 0 <= i < |prefix| && prefix[i].kind != PointLayer && prefix[i].id == id;
        assert layers[i] == prefix[i];
      }
      if exists i :: 0 <= i < |layers| && layers[i].kind != PointLayer && layers[i].id == id {
        var i :| 0 <= i < |layers| && layers[i].kind != PointLayer && layers[i].id == id;
        if i < |prefix| {
          assert prefix[i] == layers[i];
        }
      }
    }
  }

  /** Every initial visibility key is a configured layer. */
  lemma InitialKeysAreLayers(layers: seq<Layer>)
    ensures KeysAreLayers(VisibilityFor(layers), layers)
  {
    var vis := VisibilityFor(layers);
    forall i | 0 <= i < |vis|
      ensures LayerWithId(layers, vis[i].0).Some?
    {
      LookupEntry(vis, i);
      VisibilityForLookup(layers, vis[i].0);
      LastVisibilityExists(layers, vis[i].0);
    }
  }

  /** The `forEach` that fills the initial visibility dictionary. */
  method InitialVisibility(layers: seq<Layer>) returns (vis: seq<(string, bool)>)
    ensures vis == VisibilityFor(layers)
  {
    vis := [];
    var i := 0;
    while i < |layers|
      invariant 0 <= i <= |layers|
      invariant vis == VisibilityFor(layers[..i])
    {
      assert layers[..i + 1][..i] == layers[..i];
      if layers[i].kind != PointLayer {
        vis := Put(vis, layers[i].id, layers[i].visible);
      }
      i := i + 1;
    }
    assert layers[..i] == layers;
  }

  /** The `forEach` that sets the overlay opacity: 1.0 as soon as one overlay layer exists,
      otherwise the opacity stays as it was. */
  method InitialOpacity(layers: seq<Layer>, current: Option<real>) returns (opacity: Option<real>)
    ensures opacity == if exists i :: 0 <= i < |layers| && layers[i].kind == OverlayLayer then Some(1.0) else current
  {
    opacity := current;
    var i := 0;
    while i < |layers|
      invariant 0 <= i <= |layers|
      invariant opacity == if exists k :: 0 <= k < i && layers[k].kind == OverlayLayer then Some(1.0) else current
    {
      if layers[i].kind == OverlayLayer {
        opacity := Some(1.0);
      }
      i := i + 1;
    }
  }

  /** `setActiveOverlayFromId`: the same keys in the same order; an overlay is visible exactly
      when its id is the current tab id (the state, not the argument); other layers keep theirs. */
  function ActiveOverlay(vis: seq<(string, bool)>, layers: seq<Layer>, contentTabId: string): (r: seq<(string, bool)>)
    requires KeysAreLayers(vis, layers)
  {
    seq(|vis|, i requires 0 <= i < |vis| =>
      (vis[i].0, if IsOverlayId(layers, vis[i].0) then vis[i].0 == contentTabId else vis[i].1))
  }

  /** The overlay rule keeps the key set and shows at most one overlay: the one named by the
      tab; every other layer keeps its visibility. */
  lemma ActiveOverlayExclusive(vis: seq<(string, bool)>, layers: seq<Layer>, contentTabId: string)
    requires KeysAreLayers(vis, layers) && UniqueKeys(vis)
    ensures var r := ActiveOverlay(vis, layers, contentTabId);
      && |r| == |vis| && UniqueKeys(r) && KeysAreLayers(r, layers)
      && (forall i :: 0 <= i < |r| ==> r[i].0 == vis[i].0)
      && (forall i :: 0 <= i < |r| && !IsOverlayId(layers, r[i].0) ==> r[i].1 == vis[i].1)
      && (forall i :: 0 <= i < |r| && IsOverlayId(layers, r[i].0) ==> (r[i].1 <==> r[i].0 == contentTabId))
      && (forall i, j ::
            0 <= i < |r| && 0 <= j < |r| && IsOverlayId(layers, r[i].0) && IsOverlayId(layers, r[j].0) && r[i].1 && r[j].1
            ==> i == j)
  {
  }

  // ---------------------------------------------------------------------------
  // Locations

  /** Reference for `setActiveLocationFromId`: the first feature with the id in the last
      collection that has one, or the current location when none does. */
  function ScanResult(collections: seq<(string, Collection)>, id: string, current: Option<Feature>): Option<Feature>
  {
    if |collections| == 0 then current
    else
      var found := FindFeature(collections[|collections| - 1].1.features, id);
      if found.Some? then found else ScanResult(collections[..|collections| - 1], id, current)
  }

  /** `setActiveLocationFromId`: every collection is searched and each match overwrites the
      active location. */
  method ActiveLocationFromId(collections: seq<(string, Collection)>, id: string, current: Option<Feature>)
    returns (location: Option<Feature>)
    ensures location == ScanResult(collections, id, current)
  {
    location := current;
    var i := 0;
    while i < |collections|
      invariant 0 <= i <= |collections|
      invariant location == ScanResult(collections[..i], id, current)
    {
      assert collections[..i + 1][..i] == collections[..i];
      var found := FindFeature(collections[i].1.features, id);
      if found.Some? {
        location := found;
      }
      i := i + 1;
    }
    assert collections[..i] == collections;
  }

  /** The last collection with a match decides the location. */
  lemma {:induction false} LastMatchWins(collections: seq<(string, Collection)>, id: string, current: Option<Feature>, j: nat)
    requires j < |collections| && FindFeature(collections[j].1.features, id).Some?
    requires forall k :: j < k < |collections| ==> FindFeature(collections[k].1.features, id).None?
    ensures ScanResult(collections, id, current) == FindFeature(collections[j].1.features, id)
  {
    if j < |collections| - 1 {
      var prefix := collections[..|collections| - 1];
      assert prefix[j] == collections[j];
      LastMatchWins(prefix, id, current, j);
    }
  }

  /** Without any match the active location is unchanged. */
  lemma {:induction false} NoMatchKeeps(collections: seq<(string, Collection)>, id: string, current: Option<Feature>)
    requires forall k :: 0 <= k < |collections| ==> FindFeature(collections[k].1.features, id).None?
    ensures ScanResult(collections, id, current) == current
  {
    if |collections| > 0 {
      NoMatchKeeps(collections[..|collections| - 1], id, current);
    }
  }

  // ---------------------------------------------------------------------------
  // Forwarding to the map

  /** The entries whose visibility differs from the previous snapshot, in key order (an id the
      snapshot lacks always differs). */
  function Changes(vis: seq<(string, bool)>, prev: seq<(string, bool)>): seq<(string, bool)>
  {
    if |vis| == 0 then []
    else
      var last := vis[|vis| - 1];
      Changes(vis[..|vis| - 1], prev) + (if Lookup(prev, last.0) != Some(last.1) then [last] else [])
  }

  /** An entry is forwarded exactly when it is in the dictionary and the snapshot has another
      value for it, or none. */
  lemma {:induction false} ChangesMembers(vis: seq<(string, bool)>, prev: seq<(string, bool)>, e: (string, bool))
    ensures e in Changes(vis, prev) <==> e in vis && Lookup(prev, e.0) != Some(e.1)
  {
    if |vis| > 0 {
      var prefix := vis[..|vis| - 1];
      ChangesMembers(prefix, prev, e);
      assert vis == prefix + [vis[|vis| - 1]];
    }
  }

  /** Forwarding a snapshot against itself sends nothing. */
  lemma SnapshotForwardsNothing(vis: seq<(string, bool)>)
    requires UniqueKeys(vis)
    ensures Changes(vis, vis) == []
  {
    var c := Changes(vis, vis);
    if |c| > 0 {
      ChangesMembers(vis, vis, c[0]);
      var i :| 0 <= i < |vis| && vis[i] == c[0];
      LookupEntry(vis, i);
      assert false;
    }
  }

  /** After the settings toggle on a synchronised dictionary, the only entry that can be
      forwarded is the toggled one, and only when its value changed. */
  lemma ToggleForwardsOnlyThatLayer(vis: seq<(string, bool)>, id: string, visible: bool, e: (string, bool))
    requires UniqueKeys(vis)
    ensures e in Changes(Put(vis, id, visible), vis) <==> e == (id, visible) && Lookup(vis, id) != Some(visible)
  {
    var r := Put(vis, id, visible);
    ChangesMembers(r, vis, e);
    if e in r {
      var i :| 0 <= i < |r| && r[i] == e;
      LookupEntry(r, i);
    }
    if e == (id, visible) && Lookup(vis, id) != Some(visible) {
      var i :| 0 <= i < |r| && r[i].0 == id;
      LookupEntry(r, i);
    }
  }

  /** The diff loop of the visibility effect. */
  method ForwardChanges(vis: seq<(string, bool)>, prev: seq<(string, bool)>) returns (forwarded: seq<(string, bool)>)
    ensures forwarded == Changes(vis, prev)
  {
    forwarded := [];
    var i := 0;
    while i < |vis|
      invariant 0 <= i <= |vis|
      invariant forwarded == Changes(vis[..i], prev)
    {
      assert vis[..i + 1][..i] == vis[..i];
      if Lookup(prev, vis[i].0) != Some(vis[i].1) {
        forwarded := forwarded + [vis[i]];
      }
      i := i + 1;
    }
    assert vis[..i] == vis;
  }

  function VisibilityRequests(entries: seq<(string, bool)>): seq<LayerRequest>
  {
    seq(|entries|, i requires 0 <= i < |entries| => VisibilityRequest(entries[i].0, entries[i].1))
  }

  /** The overlay ids among the keys, in key order. */
  function OverlayKeys(vis: seq<(string, bool)>, layers: seq<Layer>): seq<string>
  {
    if |vis| == 0 then []
    else
      var id := vis[|vis| - 1].0;
      OverlayKeys(vis[..|vis| - 1], layers) + (if IsOverlayId(layers, id) then [id] else [])
  }

  /** An id receives the opacity exactly when it is a key and its layer is an overlay. */
  lemma {:induction false} OverlayKeysMembers(vis: seq<(string, bool)>, layers: seq<Layer>, id: string)
    ensures id in OverlayKeys(vis, layers) <==> id in KeySet(vis) && IsOverlayId(layers, id)
  {
    if |vis| > 0 {
      var prefix := vis[..|vis| - 1];
      OverlayKeysMembers(prefix, layers, id);
      assert KeySet(vis) == KeySet(prefix) + {vis[|vis| - 1].0} by {
        assert forall i :: 0 <= i < |prefix| ==> prefix[i] == vis[i];
      }
    }
  }

  /** The loop of the opacity effect. */
  method OverlayIds(vis: seq<(string, bool)>, layers: seq<Layer>) returns (ids: seq<string>)
    requires KeysAreLayers(vis, layers)
    ensures ids == OverlayKeys(vis, layers)
  {
    ids := [];
    var i := 0;
    while i < |vis|
      invariant 0 <= i <= |vis|
      invariant ids == OverlayKeys(vis[..i], layers)
    {
      assert vis[..i + 1][..i] == vis[..i];
      var layer := LayerWithId(layers, vis[i].0);
      if layer.value.kind == OverlayLayer {
        ids := ids + [vis[i].0];
      }
      i := i + 1;
    }
    assert vis[..i] == vis;
  }

  function OpacityRequests(ids: seq<string>, opacity: Option<real>): seq<LayerRequest>
  {
    seq(|ids|, i requires 0 <= i < |ids| => OpacityRequest(ids[i], opacity))
  }

  // ---------------------------------------------------------------------------
  // Labels

  datatype LayerEntry = LayerEntry(color: string, text: string)

  /** The title a layer's type supplies, if any. */
  function TypeTitle(layer: Layer, config: Config): Option<string>
  {
    match layer.kind
    case BuildingsLayer => Some("Buildings")
    case LineLayer =>
      var line := FindFeature(config.lines, layer.id);
      if line.Some? then line.value.title else None
    case LocationsLayer =>
      var collection := Lookup(config.locations, layer.id);
      if collection.Some? then collection.value.title else None
    case OverlayLayer =>
      var overlay := FindFeature(config.overlays, layer.id);
      if overlay.Some? then overlay.value.title else None
    case _ => None
  }

  /** `title ?? <type title> ?? id` */
  function Label(layer: Layer, config: Config): string
  {
    if layer.title.Some? then layer.title.value
    else if TypeTitle(layer, config).Some? then TypeTitle(layer, config).value
    else layer.id
  }

  /** The fallback chain: an own title wins even when empty; without one, a buildings layer
      is labelled `Buildings`; a layer whose type supplies no title is labelled by its id. */
  lemma LabelFallback(layer: Layer, config: Config)
    ensures layer.title.Some? ==> Label(layer, config) == layer.title.value
    ensures layer.title.None? && layer.kind == BuildingsLayer ==> Label(layer, config) == "Buildings"
    ensures layer.title.None? && layer.kind.OtherLayer? ==> Label(layer, config) == layer.id
    ensures layer.title.None? && layer.kind == LineLayer && FindFeature(config.lines, layer.id).None? ==>
      Label(layer, config) == layer.id
    ensures layer.title.None? && layer.kind == OverlayLayer ==>
      Label(layer, config) == match FindFeature(config.overlays, layer.id)
        case Some(f) => (if f.title.Some? then f.title.value else layer.id)
        case None => layer.id
  {
  }

  /** The `layerConfig` reduction: one entry per layer id. */
  function LayerConfigOf(layers: seq<Layer>, config: Config): (r: seq<(string, LayerEntry)>)
    ensures UniqueKeys(r)
  {
    if |layers| == 0 then []
    else
      var l := layers[|layers| - 1];
      Put(LayerConfigOf(layers[..|layers| - 1], config), l.id, LayerEntry(l.color, Label(l, config)))
  }

  /** Reference: the last layer with this id. */
  function LastLayerWithId(layers: seq<Layer>, id: string): Option<Layer>
  {
    if |layers| == 0 then None
    else if layers[|layers| - 1].id == id then Some(layers[|layers| - 1])
    else LastLayerWithId(layers[..|layers| - 1], id)
  }

  /** Every layer id has an entry, holding the colour and label of the last layer with that id;
      no other id has one. */
  lemma {:induction false} LayerConfigLookup(layers: seq<Layer>, config: Config, id: string)
    ensures Lookup(LayerConfigOf(layers, config), id) ==
      match LastLayerWithId(layers, id)
      case Some(l) => Some(LayerEntry(l.color, Label(l, config)))
      case None => None
    ensures LastLayerWithId(layers, id).None? <==> forall i :: 0 <= i < |layers| ==> layers[i].id != id
  {
    LastLayerAbsent(layers, id);
    if |layers| > 0 {
      var prefix := layers[..|layers| - 1];
      var l := layers[|layers| - 1];
      LayerConfigLookup(prefix, config, id);
      assert LayerConfigOf(layers, config) == Put(LayerConfigOf(prefix, config), l.id, LayerEntry(l.color, Label(l, config)));
      if l.id != id {
        assert LastLayerWithId(layers, id) == LastLayerWithId(prefix, id);
        assert Lookup(LayerConfigOf(layers, config), id) == Lookup(LayerConfigOf(prefix, config), id);
      }
    }
  }

  lemma {:induction false} LastLayerAbsent(layers: seq<Layer>, id: string)
    ensures LastLayerWithId(layers, id).None? <==> forall i :: 0 <= i < |layers| ==> layers[i].id != id
  {
    if |layers| > 0 {
      var prefix := layers[..|layers| - 1];
      LastLayerAbsent(prefix, id);
      assert forall i :: 0 <= i < |prefix| ==> prefix[i] == layers[i];
    }
  }

  // ---------------------------------------------------------------------------
  // The application state

  predicate RouteSet(route: Option<string>)
  {
    route.Some? && route.value != ""
  }

  /** `line?.geometry?.coordinates ?? null` for the configured route line. */
  function RouteGeometry(config: Config): Option<Geometry>
  {
    if !RouteSet(config.route) then None
    else
      var line := FindFeature(config.lines, config.route.value);
      if line.Some? then Some(line.value.geometry) else None
  }

  /** The content title under location binding: the location's title, or "" without one. */
  function TitleFor(location: Option<Feature>): string
  {
    if location.Some? && location.value.title.Some? then location.value.title.value else ""
  }

  class AppState {
    const config: Config
    var layerVisibility: seq<(string, bool)>
    /** `prevLayerVisibilityRef.current` */
    var prevVisibility: seq<(string, bool)>
    var overlayOpacity: Option<real>
    var contentTabId: JsId
    var contentTabIndex: Option<nat>
    var contentTitle: Option<string>
    var routeCoords: Option<Geometry>
    var activeLocation: Option<Feature>
    /** Calls on the map handle, in order. */
    var requests: seq<LayerRequest>

    /** The visibility dictionary names configured layers, once each, and the map has been told
        its every change. */
    ghost predicate Valid()
      reads this
    {
      UniqueKeys(layerVisibility) && KeysAreLayers(layerVisibility, config.layers) && prevVisibility == layerVisibility
    }

    /** The configuration arrives: the effect on it sets the initial visibility, opacity, tab
        index and route; the visibility effect then forwards every entry, and the opacity effect
        sends 1.0 to every overlay. */
    constructor (config: Config)
      ensures Valid() && this.config == config
      ensures layerVisibility == VisibilityFor(config.layers)
      ensures overlayOpacity ==
        if exists i :: 0 <= i < |config.layers| && config.layers[i].kind == OverlayLayer then Some(1.0) else None
      ensures contentTabIndex == if config.binding == OverlayBinding || RouteSet(config.route) then Some(0) else None
      ensures routeCoords == RouteGeometry(config)
      ensures requests == VisibilityRequests(layerVisibility) +
        (if overlayOpacity.Some? then OpacityRequests(OverlayKeys(layerVisibility, config.layers), overlayOpacity) else [])
      ensures contentTabId == Null && activeLocation == None && contentTitle == None
    {
      var vis := InitialVisibility(config.layers);
      var opacity := InitialOpacity(config.layers, None);
      var tabIndex: Option<nat> := None;
      if config.binding == OverlayBinding {
        tabIndex := Some(0);
      }
      if RouteSet(config.route) {
        tabIndex := Some(0);
      }
      // The visibility effect against the empty snapshot, then the opacity effect.
      InitialKeysAreLayers(config.layers);
      ChangesFromNothing(vis);
      var forwarded := ForwardChanges(vis, []);
      var sent := VisibilityRequests(forwarded);
      if opacity.Some? {
        var ids := OverlayIds(vis, config.layers);
        sent := sent + OpacityRequests(ids, opacity);
      }
      this.config := config;
      contentTabId, contentTitle, activeLocation := Null, None, None;
      layerVisibility, prevVisibility, overlayOpacity := vis, vis, opacity;
      contentTabIndex, routeCoords := tabIndex, RouteGeometry(config);
      requests := sent;
    }

    /** The effect on `layerVisibility`: forward what changed since the snapshot, then take the
        new snapshot. */
    method VisibilityEffect()
      modifies this`requests, this`prevVisibility
      ensures prevVisibility == layerVisibility
      ensures requests == old(requests) + VisibilityRequests(Changes(layerVisibility, old(prevVisibility)))
    {
      var forwarded := ForwardChanges(layerVisibility, prevVisibility);
      requests := requests + VisibilityRequests(forwarded);
      prevVisibility := layerVisibility;
    }

    /** The effect on `overlayOpacity`: send it to every overlay layer among the keys. */
    method OpacityEffect()
      requires KeysAreLayers(layerVisibility, config.layers)
      modifies this`requests
      ensures requests == old(requests) + OpacityRequests(OverlayKeys(layerVisibility, config.layers), overlayOpacity)
    {
      var ids := OverlayIds(layerVisibility, config.layers);
      requests := requests + OpacityRequests(ids, overlayOpacity);
    }

    /** The settings panel's visibility updater (`{...prev, [id]: visible}`) and the visibility
        effect it triggers: only that entry changes, and only it can be forwarded. */
    method SetLayerVisibility(id: string, visible: bool)
      requires Valid() && LayerWithId(config.layers, id).Some?
      modifies this`layerVisibility, this`prevVisibility, this`requests
      ensures Valid()
      ensures layerVisibility == Put(old(layerVisibility), id, visible)
      ensures requests == old(requests) + VisibilityRequests(Changes(layerVisibility, old(layerVisibility)))
    {
      var prev := layerVisibility;
      layerVisibility := Put(layerVisibility, id, visible);
      forall i | 0 <= i < |layerVisibility|
        ensures LayerWithId(config.layers, layerVisibility[i].0).Some?
      {
        assert layerVisibility[i].0 in KeySet(layerVisibility);
        assert layerVisibility[i].0 == id || layerVisibility[i].0 in KeySet(prev);
      }
      VisibilityEffect();
    }

    /** `setOverlayOpacity` from the settings panel and the effect it triggers when the value
        changed. */
    method SetOverlayOpacity(opacity: Option<real>)
      requires Valid()
      modifies this`overlayOpacity, this`requests
      ensures Valid() && overlayOpacity == opacity
      ensures requests == if opacity == old(overlayOpacity) then old(requests)
        else old(requests) + OpacityRequests(OverlayKeys(layerVisibility, config.layers), opacity)
    {
      if opacity != overlayOpacity {
        overlayOpacity := opacity;
        OpacityEffect();
      }
    }

    /** The effect on `activeLocation`: under location binding the title follows the location. */
    method ActiveLocationEffect()
      modifies this`contentTitle
      ensures contentTitle == if config.binding == LocationBinding then Some(TitleFor(activeLocation)) else old(contentTitle)
    {
      if config.binding == LocationBinding {
        contentTitle := Some(TitleFor(activeLocation));
      }
    }

    /** Sets the active location and runs its effect when it changed. */
    method SetActiveLocation(location: Option<Feature>)
      modifies this`activeLocation, this`contentTitle
      ensures activeLocation == location
      ensures contentTitle == if config.binding == LocationBinding && location != old(activeLocation)
        then Some(TitleFor(location)) else old(contentTitle)
    {
      if location != activeLocation {
        activeLocation := location;
        ActiveLocationEffect();
      }
    }

    /** `setContentTabId` and the effect on the tab id: a non-empty id selects the location
        with that id (location binding) or makes its overlay the only visible one (overlay
        binding). */
    method SetContentTabId(id: JsId)
      requires Valid()
      modifies this`contentTabId, this`activeLocation, this`contentTitle
      modifies this`layerVisibility, this`prevVisibility, this`requests
      ensures Valid() && contentTabId == id
      ensures contentTitle == if config.binding == LocationBinding && activeLocation != old(activeLocation)
        then Some(TitleFor(activeLocation)) else old(contentTitle)
      ensures id == old(contentTabId) || !id.Truthy() || config.binding == NoBinding ==>
        layerVisibility == old(layerVisibility) && activeLocation == old(activeLocation) && requests == old(requests)
      ensures id != old(contentTabId) && id.Truthy() && config.binding == LocationBinding ==>
        activeLocation == ScanResult(config.locations, id.s, old(activeLocation))
        && layerVisibility == old(layerVisibility) && requests == old(requests)
      ensures id != old(contentTabId) && id.Truthy() && config.binding == OverlayBinding ==>
        layerVisibility == ActiveOverlay(old(layerVisibility), config.layers, id.s)
        && activeLocation == old(activeLocation)
        && requests == old(requests) + VisibilityRequests(Changes(layerVisibility, old(layerVisibility)))
    {
      if id == contentTabId {
        return;
      }
      contentTabId := id;
      if !id.Truthy() {
        return;
      }
      if config.binding == LocationBinding {
        var location := ActiveLocationFromId(config.locations, id.s, activeLocation);
        SetActiveLocation(location);
      }
      if config.binding == OverlayBinding {
        ActiveOverlayExclusive(layerVisibility, config.layers, id.s);
        layerVisibility := ActiveOverlay(layerVisibility, config.layers, id.s);
        VisibilityEffect();
      }
    }

    /** `onLocationClick`: under location binding the click selects the tab with that id;
        otherwise it selects the location directly. */
    method OnLocationClick(id: string)
      requires Valid()
      modifies this`contentTabId, this`activeLocation, this`contentTitle
      modifies this`layerVisibility, this`prevVisibility, this`requests
      ensures Valid()
      ensures contentTitle == if config.binding == LocationBinding && activeLocation != old(activeLocation)
        then Some(TitleFor(activeLocation)) else old(contentTitle)
      ensures config.binding == LocationBinding ==>
        contentTabId == Str(id) && layerVisibility == old(layerVisibility) && requests == old(requests)
      ensures config.binding == LocationBinding && Str(id) != old(contentTabId) && id != "" ==>
        activeLocation == ScanResult(config.locations, id, old(activeLocation))
      ensures config.binding == LocationBinding && (Str(id) == old(contentTabId) || id == "") ==>
        activeLocation == old(activeLocation)
      ensures config.binding != LocationBinding ==>
        contentTabId == old(contentTabId) && layerVisibility == old(layerVisibility) && requests == old(requests)
        && activeLocation == ScanResult(config.locations, id, old(activeLocation))
    {
      if config.binding == LocationBinding {
        SetContentTabId(Str(id));
      } else {
        var location := ActiveLocationFromId(config.locations, id, activeLocation);
        SetActiveLocation(location);
      }
    }
  }

  /** Against an empty snapshot every entry is forwarded. */
  lemma {:induction false} ChangesFromNothing(vis: seq<(string, bool)>)
    ensures Changes(vis, []) == vis
  {
    if |vis| > 0 {
      ChangesFromNothing(vis[..|vis| - 1]);
      assert vis == vis[..|vis| - 1] + [vis[|vis| - 1]];
    }
  }
}
