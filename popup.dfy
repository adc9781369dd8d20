/** Popups for locations, shown while hovered (dynamic) or while selected (static)
    (lib/popup.ts). */
module Popup {
  import opened Common

  /** A popup placed on the map: where, with what text, and whether its element is visible. */
  datatype PopupView = PopupView(at: Coord, html: Option<string>, visible: bool)

  /** Everything one container holds, as a value. */
  datatype ContainerState =
    ContainerState(popup: Option<PopupView>, retired: seq<PopupView>, visibleDynamic: bool, visibleStatic: bool)

  /** The state of a container just created. */
  const Blank := ContainerState(None, [], false, false)

  /** The state of the container under `key` in `v`, or that of a new one. */
  function StateUnder(v: map<string, ContainerState>, key: string): ContainerState
  {
    if key in v then v[key] else Blank
  }

  /** The state after `setData(data)` and, when `shown`, `visibleStatic = true`. */
  function AfterLoad(c: ContainerState, data: Feature, shown: bool): ContainerState
  {
    var visibleStatic := shown || c.visibleStatic;
    var visible := c.visibleDynamic || visibleStatic;
    if data.geometry.Point? then
      ContainerState(Some(PopupView(data.geometry.at, data.title, visible)),
                     c.retired + (if c.popup.Some? then [c.popup.value] else []), c.visibleDynamic, visibleStatic)
    else
      ContainerState(if shown && c.popup.Some? then Some(c.popup.value.(visible := visible)) else c.popup,
                     c.retired, c.visibleDynamic, visibleStatic)
  }

  /** The popup state of one location id. */
  class PopupContainer {
    const id: string
    /** `#popup`: the popup created by the last `setData`, if any. */
    var popup: Option<PopupView>
    /** Popups an earlier `setData` created; they stay on the map as they were. */
    var retired: seq<PopupView>
    var visibleDynamic: bool
    var visibleStatic: bool

    /** The popup's element shows exactly when either flag is set. */
    ghost predicate Valid()
      reads this
    {
      popup.Some? ==> popup.value.visible == (visibleDynamic || visibleStatic)
    }

    /** Nothing about the popup changed. */
    twostate predicate Same()
      reads this
    {
      && popup == old(popup) && retired == old(retired)
      && visibleDynamic == old(visibleDynamic) && visibleStatic == old(visibleStatic)
    }

    /** The effective visibility. */
    predicate Visible()
      reads this
    {
      visibleDynamic || visibleStatic
    }

    /** The container's state as a value. */
    function State(): ContainerState
      reads this
    {
      ContainerState(popup, retired, visibleDynamic, visibleStatic)
    }

    constructor (id: string)
      ensures Valid() && this.id == id
      ensures popup.None? && retired == [] && !visibleDynamic && !visibleStatic
    {
      this.id := id;
      popup, retired := None, [];
      visibleDynamic, visibleStatic := false, false;
    }

    /** `#onPopupVisibleChange` */
    method ShowVisibility()
      modifies this`popup
      ensures popup.Some? <==> old(popup).Some?
      ensures popup.Some? ==> popup.value == old(popup).value.(visible := visibleDynamic || visibleStatic)
    {
      if popup.Some? {
        popup := Some(popup.value.(visible := visibleDynamic || visibleStatic));
      }
    }

    /** The `visibleDynamic` setter: the static flag is left alone. */
    method SetVisibleDynamic(visible: bool)
      modifies this`visibleDynamic, this`popup
      ensures Valid()
      ensures visibleDynamic == visible && visibleStatic == old(visibleStatic)
      ensures Visible() == (visible || old(visibleStatic))
      ensures popup.Some? <==> old(popup).Some?
      ensures popup.Some? ==> popup.value.at == old(popup).value.at && popup.value.html == old(popup).value.html
    {
      visibleDynamic := visible;
      ShowVisibility();
    }

    /** The `visibleStatic` setter: the dynamic flag is left alone. */
    method SetVisibleStatic(visible: bool)
      modifies this`visibleStatic, this`popup
      ensures Valid()
      ensures visibleStatic == visible && visibleDynamic == old(visibleDynamic)
      ensures Visible() == (visible || old(visibleDynamic))
      ensures popup.Some? <==> old(popup).Some?
      ensures popup.Some? ==> popup.value.at == old(popup).value.at && popup.value.html == old(popup).value.html
    {
      visibleStatic := visible;
      ShowVisibility();
    }

    /** `setData`: a Point feature gets a new popup at its position, titled by the feature and
        visible as the flags say; any other geometry changes nothing. */
    method SetData(data: Feature)
      requires Valid()
      modifies this`popup, this`retired
      ensures Valid()
      ensures data.geometry.Point? ==>
        && popup == Some(PopupView(data.geometry.at, data.title, visibleDynamic || visibleStatic))
        && retired == old(retired) + (if old(popup).Some? then [old(popup).value] else [])
      ensures !data.geometry.Point? ==> popup == old(popup) && retired == old(retired)
    {
      if data.geometry.Point? {
        if popup.Some? {
          retired := retired + [popup.value];
        }
        popup := Some(PopupView(data.geometry.at, data.title, true));
        ShowVisibility();
      }
    }
    /** `setData(feature)` followed, when `shown`, by `visibleStatic = true`: the turn of a
        layer's `load` loop for one container. */
    method Load(data: Feature, shown: bool)
      requires Valid()
      modifies this`popup, this`retired, this`visibleStatic
      ensures Valid()
      ensures visibleDynamic == old(visibleDynamic) && visibleStatic == (shown || old(visibleStatic))
      ensures data.geometry.Point? ==> popup == Some(PopupView(data.geometry.at, data.title, Visible()))
      ensures !data.geometry.Point? ==> (popup.Some? <==> old(popup).Some?)
      ensures !data.geometry.Point? && old(popup).Some? ==> popup == Some(old(popup).value.(visible := Visible()))
      ensures State() == AfterLoad(old(State()), data, shown)
    {
      SetData(data);
      if shown {
        SetVisibleStatic(true);
      }
    }
  }

  /** The popups of one map, created on first request. */
  class PopupManager {
    const mapId: nat
    var popups: map<string, PopupContainer>

    /** Each container is filed under its own id. */
    ghost predicate Valid()
      reads this, popups.Values
    {
      forall key :: key in popups ==> popups[key].id == key && popups[key].Valid()
    }

    /** Creating a manager registers it for its map. */
    constructor (registry: Registry, mapId: nat)
      modifies registry
      ensures Valid() && this.mapId == mapId && popups == map[]
      ensures registry.managers == old(registry.managers)[mapId := this]
    {
      this.mapId := mapId;
      popups := map[];
      new;
      registry.managers := registry.managers[mapId := this];
    }

    /** `getPopup`: the container for the key (`null` and `undefined` become the keys "null" and
        "undefined"), created with both flags clear when there is none yet. Asking again
        returns the same container. */
    method GetPopup(id: JsId) returns (p: PopupContainer)
      requires Valid()
      modifies this`popups
      ensures Valid()
      ensures id.Key() in popups && p == popups[id.Key()] && p.id == id.Key()
      ensures id.Key() in old(popups) ==> popups == old(popups) && p == old(popups)[id.Key()]
      ensures id.Key() !in old(popups) ==>
        fresh(p) && popups == old(popups)[id.Key() := p] && p.State() == Blank
    {
      var key := id.Key();
      if key !in popups {
        var created := new PopupContainer(key);
        popups := popups[key := created];
      }
      p := popups[key];
    }

    /** Whether the container under `key` exists and shows its popup for a hover. */
    predicate Dynamic(key: string)
      reads this, popups.Values
    {
      key in popups && popups[key].visibleDynamic
    }

    /** Whether the container under `key` exists and shows its popup as selected. */
    predicate Static(key: string)
      reads this, popups.Values
    {
      key in popups && popups[key].visibleStatic
    }

    /** The states of all containers, by key. */
    ghost function View(): map<string, ContainerState>
      reads this, popups.Values
    {
      map k | k in popups :: popups[k].State()
    }

    /** The popup of the container under `key`, if there is one. */
    function PopupUnder(key: string): Option<PopupView>
      reads this, popups.Values
    {
      if key in popups then popups[key].popup else None
    }

    /** The manager gained at most containers under `keys`, which are new, kept every
        container it had, and every container not under `keys` is as it was. */
    twostate predicate Kept(keys: set<string>)
      reads this, popups.Values
    {
      && (forall k :: k in old(popups) ==> k in popups && popups[k] == old(popups[k]))
      && (forall k :: k in popups ==> k in old(popups) || k in keys)
      && (forall k :: k in popups && k !in old(popups) ==> fresh(popups[k]))
      && forall k :: k in old(popups) && k !in keys ==> popups[k].Same()
    }

    /** Every container the manager had keeps its static flag. */
    twostate predicate StaticKept()
      reads this, popups.Values
    {
      forall k :: k in old(popups) && k in popups ==> popups[k].visibleStatic == old(popups[k].visibleStatic)
    }

    /** Every container the manager had keeps its hover flag. */
    twostate predicate DynamicKept()
      reads this, popups.Values
    {
      forall k :: k in old(popups) && k in popups ==> popups[k].visibleDynamic == old(popups[k].visibleDynamic)
    }

    /** `getPopup(id).setData(data)` followed, when `shown`, by `visibleStatic = true`: the
        container under the key is found or created, and only it changes, as `AfterLoad` says. */
    method LoadPopup(id: JsId, data: Feature, shown: bool) returns (p: PopupContainer)
      requires Valid()
      modifies this`popups, popups.Values
      ensures Valid() && popups == old(popups)[id.Key() := p]
      ensures id.Key() in old(popups) ==> p == old(popups[id.Key()])
      ensures id.Key() !in old(popups) ==> fresh(p)
      ensures View() == old(View())[id.Key() := AfterLoad(StateUnder(old(View()), id.Key()), data, shown)]
    {
      p := Find(id);
      Reload(p, data, shown);
    }

    /** The `getPopup` of `LoadPopup`, stated on the containers' states. */
    method Find(id: JsId) returns (p: PopupContainer)
      requires Valid()
      modifies this`popups
      ensures Valid() && popups == old(popups)[id.Key() := p] && p.id == id.Key()
      ensures id.Key() in old(popups) ==> p == old(popups[id.Key()])
      ensures id.Key() !in old(popups) ==> fresh(p)
      ensures p.State() == StateUnder(old(View()), id.Key()) && View() == old(View())[id.Key() := p.State()]
    {
      ghost var view := View();
      var key := id.Key();
      if key in popups {
        assert StateUnder(view, key) == popups[key].State();
        p := GetPopup(id);
        assert View() == view;
      } else {
        assert StateUnder(view, key) == Blank;
        p := GetPopup(id);
        assert View() == view[key := Blank];
      }
    }

    /** The `setData` and selection of `LoadPopup` on a container of this manager. */
    method Reload(p: PopupContainer, data: Feature, shown: bool)
      requires Valid() && p.id in popups && popups[p.id] == p
      modifies p`popup, p`retired, p`visibleStatic
      ensures Valid()
      ensures View() == old(View())[p.id := AfterLoad(old(p.State()), data, shown)]
    {
      ghost var view := View();
      forall k | k in popups && k != p.id
        ensures popups[k] != p
      {
        assert popups[k].id == k;
      }
      p.Load(data, shown);
      assert View() == view[p.id := p.State()];
    }

    /** `getPopup(id).visibleDynamic = visible`: sets the hover flag of the container under the
        key, creating it if needed; every other container keeps its place and its state. */
    method SetDynamic(id: JsId, visible: bool)
      requires Valid()
      modifies this`popups, popups.Values
      ensures Valid()
      ensures Dynamic(id.Key()) == visible && id.Key() in popups && Kept({id.Key()}) && StaticKept()
    {
      var p := GetPopup(id);
      p.SetVisibleDynamic(visible);
    }

    /** `getPopup(id).visibleStatic = visible`: sets the selection flag of the container under
        the key, creating it if needed; every other container keeps its place and its state,
        and every container keeps its hover flag. */
    method SetStatic(id: JsId, visible: bool) returns (p: PopupContainer)
      requires Valid()
      modifies this`popups, popups.Values
      ensures Valid() && Kept({id.Key()}) && DynamicKept()
      ensures id.Key() in popups && p == popups[id.Key()] && p.id == id.Key() && p.visibleStatic == visible
      ensures id.Key() in old(popups) ==> p == old(popups[id.Key()])
      ensures id.Key() !in old(popups) ==> !p.visibleDynamic
    {
      p := GetPopup(id);
      p.SetVisibleStatic(visible);
    }

    /** A selection changing hands: the container held static, if any, is released, and the
        container under the id, if one is given, is held static instead. Only those two
        containers change, and every container keeps its hover flag. */
    method Hand(held: PopupContainer?, id: Option<JsId>) returns (next: PopupContainer?)
      requires Valid() && (held != null ==> held in popups.Values)
      modifies this`popups, popups.Values
      ensures Valid() && Kept(HeldKeys(held) + IdKeys(id)) && DynamicKept()
      ensures held != null && held != next ==> !held.visibleStatic
      ensures id.None? ==> next == null
      ensures id.Some? ==>
        && next != null && next.visibleStatic && next.id == id.value.Key()
        && id.value.Key() in popups && next == popups[id.value.Key()]
      ensures id.Some? && id.value.Key() !in old(popups) ==> !next.visibleDynamic
    {
      ghost var before := popups;
      if held != null {
        Release(held);
      }
      label Released:
      assert popups == before && Valid();
      next := null;
      if id.Some? {
        next := SetStatic(id.value, true);
      }
      forall k | k in before && k !in HeldKeys(held) + IdKeys(id)
        ensures popups[k].Same()
      {
        assert before[k].id == k && popups[k] == before[k];
        assert old@Released(popups[k].visibleStatic) == old(popups[k].visibleStatic);
      }
    }

    /** `container.visibleStatic = false` on a container of this manager: only that container
        changes, and it keeps its hover flag. */
    method Release(p: PopupContainer)
      requires Valid() && p in popups.Values
      modifies p`visibleStatic, p`popup
      ensures Valid() && !p.visibleStatic && p.id in popups && popups[p.id] == p
      ensures Kept({p.id}) && DynamicKept()
    {
      p.SetVisibleStatic(false);
      forall k | k in popups && k != p.id
        ensures popups[k].Same()
      {
        assert popups[k].id == k;
      }
    }
  }

  /** The key of a container, if there is one, as a set. */
  function HeldKeys(p: PopupContainer?): set<string>
  {
    if p == null then {} else {p.id}
  }

  /** The key an optional id is filed under, as a set. */
  function IdKeys(id: Option<JsId>): set<string>
  {
    if id.Some? then {id.value.Key()} else {}
  }

  /** The module-level registry from maps (by identity) to their popup managers. */
  class Registry {
    var managers: map<nat, PopupManager>

    constructor ()
      ensures managers == map[]
    {
      managers := map[];
    }

    /** `getPopupManager(map)` */
    function Get(mapId: nat): Option<PopupManager>
      reads this
    {
      if mapId in managers then Some(managers[mapId]) else None
    }
  }

  /** After a manager is created, looking up its map finds it. */
  method RegisteredManagerIsFound(registry: Registry, mapId: nat) returns (m: PopupManager)
    modifies registry
    ensures fresh(m) && registry.Get(mapId) == Some(m)
    ensures forall other :: other != mapId ==> registry.Get(other) == old(registry.Get(other))
  {
    m := new PopupManager(registry, mapId);
  }

  /** Asking twice for the same key yields one container, and the second request changes
      nothing. */
  method GetPopupTwice(m: PopupManager, id: JsId) returns (p: PopupContainer, q: PopupContainer)
    requires m.Valid()
    modifies m`popups
    ensures p == q && m.Valid()
    ensures m.popups == old(m.popups)[id.Key() := p]
  {
    p := m.GetPopup(id);
    var before := m.popups;
    q := m.GetPopup(id);
    assert m.popups == before;
  }
}
