/** The draggable bottom panel: its position, settle animation and tab navigation
    (app/ContentPanel.tsx). React state updates are modelled as field updates, and each effect
    as a step that runs after the update when its dependency changed, in declaration order. */
module ContentPanel {
  import opened Common

  // ---------------------------------------------------------------------------
  // Position arithmetic

  /** `getPanelTopFraction`: how far a top offset lies from `minTop` toward `maxTop`. */
  function TopFraction(v: real, minTop: real, maxTop: real): real
    requires minTop < maxTop
  {
    (v - minTop) / (maxTop - minTop)
  }

  /** The fraction is 0 at `minTop`, 1 at `maxTop`, and grows with the offset. */
  lemma TopFractionScale(v: real, w: real, minTop: real, maxTop: real)
    requires minTop < maxTop
    ensures TopFraction(minTop, minTop, maxTop) == 0.0
    ensures TopFraction(maxTop, minTop, maxTop) == 1.0
    ensures v < w ==> TopFraction(v, minTop, maxTop) < TopFraction(w, minTop, maxTop)
  {
    var d := maxTop - minTop;
    assert d / d == 1.0;
    if v < w {
      assert (w - minTop) / d - (v - minTop) / d == (w - v) / d;
    }
  }

  /** `midPanelTop`: half the travel, measured from 0 rather than from `minTop`. */
  function MidTop(minTop: real, maxTop: real): real
  {
    0.5 * (maxTop - minTop)
  }

  /** The resting point chosen when a drag ends. */
  function SnapTarget(fraction: real, minTop: real, maxTop: real): real
  {
    if fraction < 0.25 then minTop else if fraction > 0.75 then maxTop else MidTop(minTop, maxTop)
  }

  /** The target `togglePanel` picks. */
  function ToggleTarget(fraction: real, minTop: real, maxTop: real): real
  {
    if fraction > 0.75 then MidTop(minTop, maxTop) else maxTop
  }

  /** Snap by drag position: the first quarter of the travel opens the panel fully, the last
      quarter closes it, and the rest rests at `midPanelTop`. */
  lemma SnapByPosition(dragTop: real, minTop: real, maxTop: real)
    requires minTop < maxTop
    ensures var q := (maxTop - minTop) / 4.0;
      SnapTarget(TopFraction(dragTop, minTop, maxTop), minTop, maxTop) ==
        if dragTop < minTop + q then minTop
        else if dragTop > maxTop - q then maxTop
        else MidTop(minTop, maxTop)
  {
    var d := maxTop - minTop;
    QuotientCompare(dragTop - minTop, d, 0.25);
    QuotientCompare(dragTop - minTop, d, 0.75);
  }

  /** With a panel travelling from 100 to 800: a drag ending at fraction 0.2 opens it fully, at
      0.9 closes it, and at 0.5 rests at 350, half the travel, not at the geometric middle 450. */
  lemma SnapExamples()
    ensures SnapTarget(TopFraction(240.0, 100.0, 800.0), 100.0, 800.0) == 100.0
    ensures SnapTarget(TopFraction(450.0, 100.0, 800.0), 100.0, 800.0) == 350.0
    ensures SnapTarget(TopFraction(730.0, 100.0, 800.0), 100.0, 800.0) == 800.0
  {
    assert TopFraction(240.0, 100.0, 800.0) == 0.2;
    assert TopFraction(450.0, 100.0, 800.0) == 0.5;
    assert TopFraction(730.0, 100.0, 800.0) == 0.9;
  }

  /** Toggling a panel that is more than three quarters closed opens it to `midPanelTop`;
      any other position closes it. */
  lemma ToggleByPosition(top: real, minTop: real, maxTop: real)
    requires minTop < maxTop
    ensures ToggleTarget(TopFraction(top, minTop, maxTop), minTop, maxTop) ==
      if top > maxTop - (maxTop - minTop) / 4.0 then MidTop(minTop, maxTop) else maxTop
  {
    QuotientCompare(top - minTop, maxTop - minTop, 0.75);
  }

  // ---------------------------------------------------------------------------
  // Settle animation

  /** Length of the settle animation in milliseconds. */
  const AnimationMs: real := 300.0

  function EaseOutQuad(t: real): real
  {
    t * (2.0 - t)
  }

  /** The easing maps [0, 1] onto [0, 1], fixes both ends, never lags linear progress and
      never moves backwards. */
  lemma EaseOutQuadShape(s: real, t: real)
    requires 0.0 <= s <= t <= 1.0
    ensures EaseOutQuad(0.0) == 0.0 && EaseOutQuad(1.0) == 1.0
    ensures 0.0 <= EaseOutQuad(t) <= 1.0
    ensures t <= EaseOutQuad(t)
    ensures EaseOutQuad(s) <= EaseOutQuad(t)
  {
    assert EaseOutQuad(t) - EaseOutQuad(s) == (t - s) * (2.0 - t - s);
    ProductNonNegative(t - s, 2.0 - t - s);
    assert 1.0 - EaseOutQuad(t) == (1.0 - t) * (1.0 - t);
    ProductNonNegative(1.0 - t, 1.0 - t);
    assert EaseOutQuad(t) - t == t * (1.0 - t);
    ProductNonNegative(t, 1.0 - t);
  }

  /** `Math.min(elapsed / duration, 1)` */
  function Progress(elapsed: real): real
  {
    if elapsed / AnimationMs < 1.0 then elapsed / AnimationMs else 1.0
  }

  /** The top offset a frame sets: `startTop + (target - startTop) * easeOutQuad(progress)`. */
  function EasedTop(startTop: real, goal: real, progress: real): real
  {
    startTop + (goal - startTop) * EaseOutQuad(progress)
  }

  predicate Between(v: real, a: real, b: real)
  {
    (a <= v <= b) || (b <= v <= a)
  }

  /** Every frame of a settle lies between its start and its target, the first at the start
      and the last exactly at the target. */
  lemma EasedTopBetween(startTop: real, goal: real, elapsed: real)
    requires elapsed >= 0.0
    ensures 0.0 <= Progress(elapsed) <= 1.0
    ensures Between(EasedTop(startTop, goal, Progress(elapsed)), startTop, goal)
    ensures elapsed == 0.0 ==> EasedTop(startTop, goal, Progress(elapsed)) == startTop
    ensures elapsed >= AnimationMs ==> EasedTop(startTop, goal, Progress(elapsed)) == goal
  {
    var p := Progress(elapsed);
    EaseOutQuadShape(0.0, p);
    var e := EaseOutQuad(p);
    assert (goal - startTop) - (goal - startTop) * e == (goal - startTop) * (1.0 - e);
    if goal >= startTop {
      ProductNonNegative(goal - startTop, e);
      ProductNonNegative(goal - startTop, 1.0 - e);
    } else {
      ProductNonNegative(startTop - goal, e);
      ProductNonNegative(startTop - goal, 1.0 - e);
    }
  }

  /** The value passed to `setPanelTopChanging`. */
  function Changing(dragging: bool, panelTop: real, target: Option<real>): bool
  {
    dragging || (target.Some? && panelTop != target.value)
  }

  /** The panel counts as changing exactly while it is dragged or still short of its target;
      a panel at rest, or one that has reached its target, does not. */
  lemma ChangingMeans(dragging: bool, panelTop: real, target: Option<real>)
    ensures !dragging && target.None? ==> !Changing(dragging, panelTop, target)
    ensures !dragging && target == Some(panelTop) ==> !Changing(dragging, panelTop, target)
    ensures dragging ==> Changing(dragging, panelTop, target)
    ensures target.Some? && target.value != panelTop ==> Changing(dragging, panelTop, target)
  {
  }

  /** The settle animation that is running: where it started, when, and toward which top. */
  datatype Animation = Animation(startTop: real, startTime: real, goal: real)

  class Panel {
    const minTop: real
    const maxTop: real
    /** `panelTop` (App's `contentPanelTop`). */
    var panelTop: real
    /** `dragTop` (App's `contentPanelDragTop`). */
    var dragTop: real
    /** `targetPanelTop` */
    var target: Option<real>
    var dragging: bool
    var bodyHeight: real
    /** The last value passed to `setPanelTopChanging`. */
    var changing: bool
    var showSettings: bool
    /** `animationRef.current` has been set, which it stays once any animation started. */
    var frameRequested: bool
    /** The animation frame that is due, if any. */
    var anim: Option<Animation>

    /** The body fills the space below the drag position; a target means a frame loop was
        started; a running animation heads for the current target. */
    ghost predicate Valid()
      reads this
    {
      && minTop < maxTop
      && bodyHeight == maxTop - dragTop
      && (target.Some? ==> frameRequested)
      && (anim.Some? ==> target == Some(anim.value.goal))
    }

    /** Mounting with the panel closed: the effects on `panelTop` size the body and seed `dragTop`. */
    constructor (minTop: real, maxTop: real)
      requires minTop < maxTop
      ensures Valid()
      ensures this.minTop == minTop && this.maxTop == maxTop
      ensures panelTop == maxTop && dragTop == maxTop && bodyHeight == 0.0
      ensures target == None && anim == None && !dragging && !changing && !showSettings
    {
      this.minTop, this.maxTop := minTop, maxTop;
      panelTop, dragTop, bodyHeight := maxTop, maxTop, 0.0;
      target, anim := None, None;
      dragging, changing, showSettings, frameRequested := false, false, false, false;
    }

    /** The effect on `panelTop`: body height, `dragTop` (whose own effect then sets the same
        height), the changing flag, and closing the settings panel once the panel rests open. */
    method PanelTopEffect()
      requires minTop < maxTop
      modifies this`bodyHeight, this`dragTop, this`changing, this`showSettings
      ensures bodyHeight == maxTop - panelTop && dragTop == panelTop
      ensures changing == Changing(dragging, panelTop, target)
      ensures showSettings ==
        (old(showSettings) && !(!changing && (target.None? || target.value == 0.0) && panelTop < maxTop))
    {
      bodyHeight := maxTop - panelTop;
      dragTop := panelTop;
      changing := Changing(dragging, panelTop, target);
      if !changing && (target.None? || target.value == 0.0) && panelTop < maxTop {
        showSettings := false;
      }
    }

    /** Runs the effects of one render after `target` and `panelTop` were updated from
        `prevTarget` and `prevTop`. The cleanup of the run for a non-null `prevTarget` cancels its
        frame and resets the target to null; a new non-null target starts an animation from the
        current top, which that reset (one render later) cancels again. */
    method Commit(prevTarget: Option<real>, prevTop: real, now: real)
      requires minTop < maxTop && bodyHeight == maxTop - dragTop
      requires prevTarget.Some? ==> frameRequested
      requires anim.Some? ==> prevTarget == Some(anim.value.goal)
      modifies this
      ensures Valid()
      ensures panelTop == old(panelTop) && dragging == old(dragging)
      ensures target == if old(target) != prevTarget && prevTarget.Some? then None else old(target)
      ensures anim ==
        if old(target) == prevTarget then old(anim)
        else if prevTarget.None? && old(target).Some? then Some(Animation(panelTop, now, old(target).value))
        else None
      ensures old(panelTop) != prevTop ==>
        && bodyHeight == maxTop - panelTop && dragTop == panelTop
        && changing == Changing(dragging, panelTop, old(target))
        && showSettings == (old(showSettings) &&
             !(!changing && (old(target).None? || old(target).value == 0.0) && panelTop < maxTop))
      ensures old(panelTop) == prevTop ==>
        dragTop == old(dragTop) && changing == old(changing) && showSettings == old(showSettings)
    {
      var reset := false;
      if target != prevTarget {
        if prevTarget.Some? && frameRequested {
          anim := None;
          reset := true;
        }
        if target.Some? {
          anim := Some(Animation(panelTop, now, target.value));
          frameRequested := true;
        }
      }
      if panelTop != prevTop {
        PanelTopEffect();
      }
      if reset {
        anim := None;
        target := None;
      }
    }

    /** `onDragStart`: dragging begins; once any animation has been requested, the pending frame
        is cancelled (the target stays) and the panel's rendered top becomes `panelTop`. */
    method DragStart(renderedTop: real, now: real)
      requires Valid()
      modifies this
      ensures Valid() && dragging && target == old(target) && showSettings == old(showSettings)
      ensures anim == if old(frameRequested) then None else old(anim)
      ensures panelTop == if old(frameRequested) then renderedTop else old(panelTop)
      ensures old(frameRequested) && renderedTop != old(panelTop) ==>
        bodyHeight == maxTop - renderedTop && dragTop == renderedTop && changing
      ensures panelTop == old(panelTop) ==> dragTop == old(dragTop) && changing == old(changing)
    {
      var prevTop := panelTop;
      dragging := true;
      if frameRequested {
        anim := None;
        panelTop := renderedTop;
      }
      Commit(target, prevTop, now);
    }

    /** `onDragMove`: the rendered top becomes `dragTop`, and the body follows it. */
    method DragMove(renderedTop: real)
      requires Valid()
      modifies this`dragTop, this`bodyHeight
      ensures Valid()
      ensures dragTop == renderedTop && bodyHeight == maxTop - renderedTop
    {
      dragTop := renderedTop;
      bodyHeight := maxTop - dragTop;
    }

    /** `onDragStop`: the panel takes the drag position and heads for the snap target. A target
        equal to the current one starts nothing, so a drag that interrupted a settle and ends
        toward the same target leaves the panel where it was dropped. When the top moved, the
        effect on it sizes the body, reports whether the panel is still changing and closes the
        settings once the panel rests open. */
    method DragStop(now: real)
      requires Valid()
      modifies this
      ensures Valid() && !dragging
      ensures panelTop == old(dragTop)
      ensures var snap := SnapTarget(TopFraction(old(dragTop), minTop, maxTop), minTop, maxTop);
        && (old(target).None? ==> target == Some(snap) && anim == Some(Animation(old(dragTop), now, snap)))
        && (old(target).Some? && old(target) != Some(snap) ==> target.None? && anim.None?)
        && (old(target) == Some(snap) ==> target == old(target) && anim == old(anim))
        && (old(dragTop) != old(panelTop) ==>
              && bodyHeight == maxTop - panelTop && dragTop == panelTop
              && changing == Changing(false, panelTop, Some(snap))
              && showSettings == (old(showSettings) && !(!changing && snap == 0.0 && panelTop < maxTop)))
      ensures old(dragTop) == old(panelTop) ==>
        dragTop == old(dragTop) && changing == old(changing) && showSettings == old(showSettings)
    {
      var prevTarget, prevTop := target, panelTop;
      dragging := false;
      panelTop := dragTop;
      target := Some(SnapTarget(TopFraction(dragTop, minTop, maxTop), minTop, maxTop));
      Commit(prevTarget, prevTop, now);
    }

    /** `togglePanel`: head for `midPanelTop` from a nearly closed panel, else for `maxPanelTop`. */
    method Toggle(renderedTop: real, now: real)
      requires Valid()
      modifies this
      ensures Valid() && panelTop == old(panelTop) && dragging == old(dragging)
      ensures dragTop == old(dragTop) && changing == old(changing) && showSettings == old(showSettings)
      ensures var goal := ToggleTarget(TopFraction(renderedTop, minTop, maxTop), minTop, maxTop);
        && (old(target).None? ==> target == Some(goal) && anim == Some(Animation(panelTop, now, goal)))
        && (old(target).Some? && old(target) != Some(goal) ==> target.None? && anim.None?)
        && (old(target) == Some(goal) ==> target == old(target) && anim == old(anim))
    {
      var prevTarget := target;
      target := Some(ToggleTarget(TopFraction(renderedTop, minTop, maxTop), minTop, maxTop));
      Commit(prevTarget, panelTop, now);
    }

    /** `setShowSettingsPanel`: opening the settings panel closes the content panel
        (`closePanel` targets `maxPanelTop`). A settle already heading elsewhere is replaced,
        and the cleanup of its animation then resets the target to null: the panel stops
        where it is and does not close. */
    method SetShowSettings(show: bool, now: real)
      requires Valid()
      modifies this
      ensures Valid() && showSettings == show && panelTop == old(panelTop) && dragging == old(dragging)
      ensures dragTop == old(dragTop) && changing == old(changing)
      ensures show && !old(showSettings) && old(target).None? ==>
        target == Some(maxTop) && anim == Some(Animation(panelTop, now, maxTop))
      ensures show && !old(showSettings) && old(target) == Some(maxTop) ==>
        target == old(target) && anim == old(anim)
      ensures show && !old(showSettings) && old(target).Some? && old(target) != Some(maxTop) ==>
        target.None? && anim.None?
      ensures !show || old(showSettings) ==> target == old(target) && anim == old(anim)
    {
      var opening := show && !showSettings;
      showSettings := show;
      if opening {
        var prevTarget := target;
        target := Some(maxTop);
        Commit(prevTarget, panelTop, now);
      }
    }

    /** One animation frame at time `time`: the eased top is set, always between the start and
        the target; at full progress the frame loop ends and the target is reset to null. The
        effect on the top then runs against the target of the same render. */
    method AnimationFrame(time: real)
      requires Valid() && anim.Some? && time >= anim.value.startTime
      modifies this
      ensures Valid()
      ensures var a := old(anim).value;
        && panelTop == EasedTop(a.startTop, a.goal, Progress(time - a.startTime))
        && Between(panelTop, a.startTop, a.goal)
        && (time - a.startTime >= AnimationMs ==> panelTop == a.goal && target.None? && anim.None?)
        && (time - a.startTime < AnimationMs ==> target == old(target) && anim == old(anim))
      ensures var a := old(anim).value;
        var seen := if time - a.startTime >= AnimationMs then None else old(target);
        panelTop != old(panelTop) ==>
          && bodyHeight == maxTop - panelTop && dragTop == panelTop
          && changing == Changing(dragging, panelTop, seen)
          && showSettings == (old(showSettings) &&
               !(!changing && (seen.None? || seen.value == 0.0) && panelTop < maxTop))
      ensures panelTop == old(panelTop) ==>
        dragTop == old(dragTop) && changing == old(changing) && showSettings == old(showSettings)
    {
      var a := anim.value;
      EasedTopBetween(a.startTop, a.goal, time - a.startTime);
      var progress := Progress(time - a.startTime);
      var prevTarget, prevTop := target, panelTop;
      panelTop := EasedTop(a.startTop, a.goal, progress);
      if progress >= 1.0 {
        anim := None;
        target := None;
      }
      Commit(prevTarget, prevTop, time);
    }
  }

  // ---------------------------------------------------------------------------
  // Tab navigation

  /** The element an optional reference holds, as a set. */
  function Members(o: Option<string>): set<string>
  {
    if o.Some? then {o.value} else {}
  }

  /** The tab sections of the page and which one is shown. */
  class Tabs {
    /** Ids of the `.rara-maps-content-tab` elements, in document order. */
    const tabs: seq<string>
    /** Ids of all elements of the page that `#id` can select. */
    const pageIds: set<string>
    /** Non-empty `title` attributes, by element id. */
    const titles: map<string, string>
    /** `tabId` (App's `contentTabId`). */
    var tabId: JsId
    /** `tabIndex` (App's `contentTabIndex`). */
    var tabIndex: Option<nat>
    /** `tabElemRef`: the element last un-hidden. */
    var shown: Option<string>
    /** Elements this component has given the `hidden` class. */
    var hidden: set<string>
    var title: Option<string>

    /** A set index always names a tab, and the id selects that tab; the element shown is the
        one the id selects. */
    ghost predicate Valid()
      reads this
    {
      && (forall i :: 0 <= i < |tabs| ==> tabs[i] in pageIds)
      && (tabIndex.Some? ==> tabIndex.value < |tabs| && tabId.Key() == tabs[tabIndex.value])
      && shown == Selected()
      && (shown.Some? ==> shown.value !in hidden)
    }

    /** `document.querySelector('#' + tabId)`: the element with that id, if the page has one. */
    function Selected(): Option<string>
      reads this
    {
      if tabId.Key() in pageIds then Some(tabId.Key()) else None
    }

    /** Mounting: no tab id yet, so the effects look up `#null`. */
    constructor (tabs: seq<string>, pageIds: set<string>, titles: map<string, string>)
      requires forall i :: 0 <= i < |tabs| ==> tabs[i] in pageIds
      ensures Valid() && this.tabs == tabs && this.pageIds == pageIds && this.titles == titles
      ensures tabId.Key() == "null" && tabIndex == IndexOf(tabs, "null")
    {
      this.tabs, this.pageIds, this.titles := tabs, pageIds, titles;
      tabId, tabIndex, shown, hidden, title := Null, None, None, {}, None;
      new;
      IdEffect();
    }

    /** The first half of the effect on `tabId`: hide the old element, show `#tabId` and take
        its title. */
    method ShowTab()
      modifies this`shown, this`hidden, this`title
      ensures shown == Selected()
      ensures hidden == (old(hidden) + Members(old(shown))) - Members(shown)
      ensures shown.Some? ==> shown.value !in hidden
      ensures title == if shown.Some? && tabId.Key() in titles then Some(titles[tabId.Key()]) else old(title)
    {
      if shown.Some? {
        hidden := hidden + {shown.value};
      }
      var key := tabId.Key();
      shown := if key in pageIds then Some(key) else None;
      if shown.Some? {
        hidden := hidden - {key};
        if key in titles {
          title := Some(titles[key]);
        }
      }
    }

    /** The effect on `tabId` and what it sets off: the index becomes the position of the
        selected element among the tabs (null if it is none of them), and when that index changed,
        the effect on the index writes back the tab's own id, which selects the same element. */
    method IdEffect()
      requires forall i :: 0 <= i < |tabs| ==> tabs[i] in pageIds
      requires tabIndex.Some? ==> tabIndex.value < |tabs|
      modifies this
      ensures Valid()
      ensures tabId.Key() == old(tabId.Key()) && tabIndex == IndexOf(tabs, tabId.Key())
      ensures shown == Selected()
      ensures hidden == (old(hidden) + Members(old(shown))) - Members(shown)
      ensures title == if shown.Some? && tabId.Key() in titles then Some(titles[tabId.Key()]) else old(title)
    {
      ShowTab();
      var index := IndexOf(tabs, tabId.Key());
      if index != tabIndex {
        tabIndex := index;
        if index.Some? && tabId != Str(tabs[index.value]) {
          tabId := Str(tabs[index.value]);
          ShowTab();
        }
      }
    }

    /** `setTabId`: shows the element with that id and selects its tab. */
    method SetTabId(id: JsId)
      requires Valid()
      modifies this
      ensures Valid() && tabId.Key() == id.Key()
      ensures id != old(tabId) ==> tabIndex == IndexOf(tabs, id.Key())
      ensures id == old(tabId) ==> tabIndex == old(tabIndex)
      ensures id == old(tabId) ==> tabId == old(tabId)
      ensures shown == (if id.Key() in pageIds then Some(id.Key()) else None)
      ensures hidden == (old(hidden) + Members(old(shown))) - Members(shown)
      ensures title == if id != old(tabId) && shown.Some? && id.Key() in titles then Some(titles[id.Key()]) else old(title)
    {
      if id == tabId {
        return;
      }
      tabId := id;
      IdEffect();
    }

    /** `setTabIndex`: the effect on the index selects that tab's id, and the effect on the id
        then confirms the index (the first tab with that id, should two share one). */
    method SetTabIndex(index: nat)
      requires Valid() && index < |tabs|
      modifies this
      ensures Valid() && tabId.Key() == tabs[index]
      ensures tabIndex.Some? && tabIndex.value <= index && tabs[tabIndex.value] == tabs[index]
      ensures NoDuplicates(tabs) ==> tabIndex == Some(index)
      ensures shown == Some(tabs[index])
      ensures hidden == (old(hidden) + Members(old(shown))) - Members(shown)
      ensures title ==
        if old(tabIndex) != Some(index) && old(tabId) != Str(tabs[index]) && tabs[index] in titles
        then Some(titles[tabs[index]]) else old(title)
    {
      if tabIndex != Some(index) {
        tabIndex := Some(index);
        if tabId != Str(tabs[index]) {
          tabId := Str(tabs[index]);
          IdEffect();
        }
      }
      if NoDuplicates(tabs) {
        IndexOfNoDuplicates(tabs, index);
        IndexOfNoDuplicates(tabs, tabIndex.value);
      }
    }

    /** `tabIndex` in arithmetic: null counts as 0. */
    function IndexNumber(): nat
      reads this
    {
      match tabIndex
      case Some(i) => i
      case None => 0
    }

    /** `showPrevButton`: `tabIndex > 0` (false for null). */
    predicate ShowPrev()
      reads this
    {
      tabIndex.Some? && tabIndex.value > 0
    }

    /** `showNextButton`: a tab element is shown and `tabIndex + 1` is a tab. */
    predicate ShowNext()
      reads this
    {
      shown.Some? && IndexNumber() + 1 < |tabs|
    }

    /** `onPrev`, available while the previous button shows. */
    method Prev()
      requires Valid() && ShowPrev()
      modifies this
      ensures Valid() && tabId.Key() == tabs[old(tabIndex).value - 1]
      ensures NoDuplicates(tabs) ==> tabIndex == Some(old(tabIndex).value - 1)
    {
      SetTabIndex(tabIndex.value - 1);
    }

    /** `onNext`, available while the next button shows; from a null index it goes to tab 1. */
    method Next()
      requires Valid() && ShowNext()
      modifies this
      ensures Valid() && tabId.Key() == tabs[old(IndexNumber()) + 1]
      ensures NoDuplicates(tabs) ==> tabIndex == Some(old(IndexNumber()) + 1)
    {
      SetTabIndex(IndexNumber() + 1);
    }
  }

  /** The buttons only offer moves that land on a tab: the previous button shows exactly when
      there is a tab before the current one, and the next button only when there is one after. */
  lemma NavigationInRange(t: Tabs)
    requires t.Valid()
    ensures t.ShowPrev() <==> t.tabIndex.Some? && 0 <= t.tabIndex.value - 1 < |t.tabs|
    ensures t.ShowNext() ==> t.IndexNumber() + 1 < |t.tabs|
    ensures t.tabIndex.Some? && t.shown.Some? ==> (t.ShowNext() <==> t.tabIndex.value + 1 < |t.tabs|)
  {
  }
}
