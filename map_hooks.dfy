/** Readiness-gated, debounced layer commands against the map (app/MapHooks.tsx). */
module MapHooks {
  import opened Common

  // ---------------------------------------------------------------------------
  // Readiness gate (`waitForLayerReady`)

  /** What the readiness check reads from the map at one moment. */
  datatype MapSnapshot = MapSnapshot(loaded: bool, layers: set<string>)

  /** `map.loaded() && map.getLayer(layerId)` */
  predicate LayerReady(m: MapSnapshot, layerId: string)
  {
    m.loaded && layerId in m.layers
  }

  /** The map events on which readiness is checked again. */
  const ReadinessEvents: set<string> := {"load", "styledata", "sourcedata", "idle"}

  /** How long, in milliseconds, a layer command waits for its layer. */
  const ReadinessTimeoutMs: nat := 3000

  datatype WaitState = Waiting | Resolved | TimedOut

  /** One pending `waitForLayerReady` promise: its state, the map listeners it holds and
      whether its timeout timer is armed. */
  class LayerWait {
    const layerId: string
    const timeoutMs: nat
    var state: WaitState
    var listeners: set<string>
    var timerArmed: bool

    /** While waiting it listens to every readiness event and holds the timer; once settled it
        holds neither. */
    ghost predicate Valid()
      reads this
    {
      && (state == Waiting ==> listeners == ReadinessEvents && timerArmed)
      && (state != Waiting ==> listeners == {} && !timerArmed)
    }

    /** The promise's executor: an immediate check, and only when it fails the listeners and
        the timer. A timeout left undefined defaults to `ReadinessTimeoutMs`, which is also
        the value both layer commands pass. */
    constructor (m: MapSnapshot, layerId: string, timeoutMs: Option<nat>)
      ensures Valid() && this.layerId == layerId
      ensures this.timeoutMs == if timeoutMs.Some? then timeoutMs.value else ReadinessTimeoutMs
      ensures state == if LayerReady(m, layerId) then Resolved else Waiting
    {
      this.layerId := layerId;
      this.timeoutMs := if timeoutMs.Some? then timeoutMs.value else ReadinessTimeoutMs;
      if LayerReady(m, layerId) {
        state, listeners, timerArmed := Resolved, {}, false;
      } else {
        state, listeners, timerArmed := Waiting, ReadinessEvents, true;
      }
    }

    /** One of the readiness events fires: on success the promise resolves and the cleanup
        removes every listener and clears the timer. */
    method OnEvent(event: string, m: MapSnapshot)
      requires Valid() && event in listeners
      modifies this
      ensures Valid()
      ensures state == if LayerReady(m, layerId) then Resolved else Waiting
    {
      if LayerReady(m, layerId) {
        state, listeners, timerArmed := Resolved, {}, false;
      }
    }

    /** The timeout fires: the cleanup runs and the promise rejects. */
    method OnTimeout()
      requires Valid() && timerArmed
      modifies this
      ensures Valid() && state == TimedOut
    {
      state, listeners, timerArmed := TimedOut, {}, false;
    }
  }

  // ---------------------------------------------------------------------------
  // Single layer commands (`safeSetVisibility`, `safeSetRasterOpacity`)

  /** The map as a layer command finds it: whether one is attached, which layers become ready
      within the readiness timeout, and which layers its style lists once the wait is over. */
  datatype MapEnv = MapEnv(present: bool, readyInTime: set<string>, styleLayers: set<string>)

  /** A call made on the map. */
  datatype Command =
    | SetLayoutVisibility(layerId: string, visibility: string)
    | SetRasterOpacity(layerId: string, opacity: real)
  {
    function LayerId(): string
    {
      match this
      case SetLayoutVisibility(id, _) => id
      case SetRasterOpacity(id, _) => id
    }
  }

  /** A command reaches the map only when there is a map, its layer became ready before the
      timeout and the style still lists it; every other case is caught and reported as false. */
  predicate Accepted(env: MapEnv, layerId: string)
  {
    env.present && layerId in env.readyInTime && layerId in env.styleLayers
  }

  /** `Number(x)` of a requested opacity. */
  datatype NumberValue = NaN | Num(v: real)

  /** `Math.max(0, Math.min(1, v))` */
  function Clamp01(v: real): real
  {
    if v > 1.0 then 1.0 else if v < 0.0 then 0.0 else v
  }

  /** `safeSetVisibility`: the map call it makes, if any; it returns true exactly when it makes one. */
  function SafeSetVisibility(env: MapEnv, layerId: string, visible: bool): Option<Command>
  {
    if Accepted(env, layerId) then Some(SetLayoutVisibility(layerId, if visible then "visible" else "none"))
    else None
  }

  /** `safeSetRasterOpacity`: NaN becomes 1 and the value is clamped to [0, 1]. */
  function SafeSetRasterOpacity(env: MapEnv, layerId: string, opacity: NumberValue): Option<Command>
  {
    if Accepted(env, layerId) then
      Some(SetRasterOpacity(layerId, Clamp01(if opacity.NaN? then 1.0 else opacity.v)))
    else None
  }

  /** The rescaling `flush` applies before handing an opacity on: NaN becomes 1 and a value
      above 1 is read as a percentage. */
  function FlushScale(x: NumberValue): real
  {
    var v := if x.NaN? then 1.0 else x.v;
    if v > 1.0 then v / 100.0 else v
  }

  /** The opacity that reaches the map for a requested value. */
  function AppliedOpacity(x: NumberValue): (r: real)
    ensures 0.0 <= r <= 1.0
  {
    Clamp01(FlushScale(x))
  }

  /** Opacity normalisation: NaN gives 1, [0, 1] is kept, (1, 100] is a percentage, anything
      larger saturates at 1 and anything negative at 0. */
  lemma OpacityNormalisation(x: NumberValue)
    ensures x.NaN? ==> AppliedOpacity(x) == 1.0
    ensures x.Num? && 0.0 <= x.v <= 1.0 ==> AppliedOpacity(x) == x.v
    ensures x.Num? && 1.0 < x.v <= 100.0 ==> AppliedOpacity(x) == x.v / 100.0
    ensures x.Num? && x.v > 100.0 ==> AppliedOpacity(x) == 1.0
    ensures x.Num? && x.v < 0.0 ==> AppliedOpacity(x) == 0.0
  {
  }

  /** The visibility phase of a flush: one attempt per snapshot entry, in entry order. */
  function VisibilityBatch(env: MapEnv, entries: seq<(string, bool)>): seq<Command>
  {
    if entries == [] then []
    else
      (match SafeSetVisibility(env, entries[0].0, entries[0].1)
       case Some(c) => [c]
       case None => [])
      + VisibilityBatch(env, entries[1..])
  }

  /** The opacity phase of a flush. */
  function OpacityBatch(env: MapEnv, entries: seq<(string, NumberValue)>): seq<Command>
  {
    if entries == [] then []
    else
      (match SafeSetRasterOpacity(env, entries[0].0, Num(FlushScale(entries[0].1)))
       case Some(c) => [c]
       case None => [])
      + OpacityBatch(env, entries[1..])
  }

  /** The commands of a trace that address one layer. */
  function CommandsFor(cs: seq<Command>, layerId: string): seq<Command>
  {
    if cs == [] then []
    else (if cs[0].LayerId() == layerId then [cs[0]] else []) + CommandsFor(cs[1..], layerId)
  }

  lemma {:induction false} CommandsForAppend(a: seq<Command>, b: seq<Command>, layerId: string)
    ensures CommandsFor(a + b, layerId) == CommandsFor(a, layerId) + CommandsFor(b, layerId)
  {
    if a == [] {
      assert a + b == b;
    } else {
      var head := if a[0].LayerId() == layerId then [a[0]] else [];
      assert (a + b)[0] == a[0] && (a + b)[1..] == a[1..] + b;
      assert CommandsFor(a + b, layerId) == head + CommandsFor(a[1..] + b, layerId);
      CommandsForAppend(a[1..], b, layerId);
      assert CommandsFor(a, layerId) == head + CommandsFor(a[1..], layerId);
    }
  }

  /** The visibility phase makes only visibility calls, and the opacity phase only opacity
      calls, each with a value in [0, 1]. */
  lemma {:induction false} BatchKinds(env: MapEnv, vis: seq<(string, bool)>, op: seq<(string, NumberValue)>)
    ensures forall c :: c in VisibilityBatch(env, vis) ==> c.SetLayoutVisibility?
    ensures forall c :: c in OpacityBatch(env, op) ==> c.SetRasterOpacity? && 0.0 <= c.opacity <= 1.0
  {
    if vis != [] {
      BatchKinds(env, vis[1..], op);
    }
    if op != [] {
      BatchKinds(env, vis, op[1..]);
    }
  }

  /** In a flush, every visibility call comes before every opacity call. */
  lemma VisibilityBeforeOpacity(env: MapEnv, vis: seq<(string, bool)>, op: seq<(string, NumberValue)>)
    ensures var t := VisibilityBatch(env, vis) + OpacityBatch(env, op);
      forall i, j :: 0 <= i < |t| && 0 <= j < |t| && t[i].SetRasterOpacity? && t[j].SetLayoutVisibility? ==> j < i
  {
    BatchKinds(env, vis, op);
    var v, o := VisibilityBatch(env, vis), OpacityBatch(env, op);
    var t := v + o;
    forall k | 0 <= k < |v|
      ensures t[k].SetLayoutVisibility?
    {
      assert t[k] == v[k] && v[k] in v;
    }
    forall k | |v| <= k < |t|
      ensures t[k].SetRasterOpacity?
    {
      assert t[k] == o[k - |v|] && o[k - |v|] in o;
    }
  }

  /** With one entry per layer, a flush makes exactly one opacity call for a pending layer the
      map accepts, carrying the normalised pending value, and none otherwise. */
  lemma {:induction false} OpacityBatchFor(env: MapEnv, entries: seq<(string, NumberValue)>, layerId: string)
    requires UniqueKeys(entries)
    ensures CommandsFor(OpacityBatch(env, entries), layerId) ==
      match Lookup(entries, layerId)
      case Some(x) => if Accepted(env, layerId) then [SetRasterOpacity(layerId, AppliedOpacity(x))] else []
      case None => []
  {
    if entries != [] {
      var head := match SafeSetRasterOpacity(env, entries[0].0, Num(FlushScale(entries[0].1)))
        case Some(c) => [c]
        case None => [];
      CommandsForAppend(head, OpacityBatch(env, entries[1..]), layerId);
      OpacityBatchFor(env, entries[1..], layerId);
      if entries[0].0 == layerId {
        OpacityBatchWithout(env, entries[1..], layerId);
      }
    }
  }

  lemma {:induction false} OpacityBatchWithout(env: MapEnv, entries: seq<(string, NumberValue)>, layerId: string)
    requires forall i :: 0 <= i < |entries| ==> entries[i].0 != layerId
    ensures CommandsFor(OpacityBatch(env, entries), layerId) == []
  {
    if entries != [] {
      var head := match SafeSetRasterOpacity(env, entries[0].0, Num(FlushScale(entries[0].1)))
        case Some(c) => [c]
        case None => [];
      CommandsForAppend(head, OpacityBatch(env, entries[1..]), layerId);
      OpacityBatchWithout(env, entries[1..], layerId);
    }
  }

  /** The visibility counterpart of `OpacityBatchFor`. */
  lemma {:induction false} VisibilityBatchFor(env: MapEnv, entries: seq<(string, bool)>, layerId: string)
    requires UniqueKeys(entries)
    ensures CommandsFor(VisibilityBatch(env, entries), layerId) ==
      match Lookup(entries, layerId)
      case Some(b) =>
        if Accepted(env, layerId) then [SetLayoutVisibility(layerId, if b then "visible" else "none")] else []
      case None => []
  {
    if entries != [] {
      var head := match SafeSetVisibility(env, entries[0].0, entries[0].1)
        case Some(c) => [c]
        case None => [];
      CommandsForAppend(head, VisibilityBatch(env, entries[1..]), layerId);
      VisibilityBatchFor(env, entries[1..], layerId);
      if entries[0].0 == layerId {
        VisibilityBatchWithout(env, entries[1..], layerId);
      }
    }
  }

  lemma {:induction false} VisibilityBatchWithout(env: MapEnv, entries: seq<(string, bool)>, layerId: string)
    requires forall i :: 0 <= i < |entries| ==> entries[i].0 != layerId
    ensures CommandsFor(VisibilityBatch(env, entries), layerId) == []
  {
    if entries != [] {
      var head := match SafeSetVisibility(env, entries[0].0, entries[0].1)
        case Some(c) => [c]
        case None => [];
      CommandsForAppend(head, VisibilityBatch(env, entries[1..]), layerId);
      VisibilityBatchWithout(env, entries[1..], layerId);
    }
  }

  /** Two opacity requests for one layer before a flush: only the later value is applied, once. */
  lemma LastOpacityWins(env: MapEnv, pending: seq<(string, NumberValue)>, layerId: string, first: NumberValue, second: NumberValue)
    requires UniqueKeys(pending)
    ensures CommandsFor(OpacityBatch(env, Put(Put(pending, layerId, first), layerId, second)), layerId) ==
      if Accepted(env, layerId) then [SetRasterOpacity(layerId, AppliedOpacity(second))] else []
  {
    PutPut(pending, layerId, first, second);
    OpacityBatchFor(env, Put(pending, layerId, second), layerId);
  }

  /** Two visibility requests for one layer before a flush: only the later one is applied,
      as the truthiness of the requested value. */
  lemma LastVisibilityWins(env: MapEnv, pending: seq<(string, bool)>, layerId: string, first: JsValue, second: JsValue)
    requires UniqueKeys(pending)
    ensures CommandsFor(VisibilityBatch(env, Put(Put(pending, layerId, first.Truthy()), layerId, second.Truthy())), layerId) ==
      if Accepted(env, layerId) then [SetLayoutVisibility(layerId, if second.Truthy() then "visible" else "none")] else []
  {
    PutPut(pending, layerId, first.Truthy(), second.Truthy());
    VisibilityBatchFor(env, Put(pending, layerId, second.Truthy()), layerId);
  }

  // ---------------------------------------------------------------------------
  // The debounced queue (`useMapHooks`)

  class LayerCommandQueue {
    /** `pendingOpacityRef`: layer id to requested opacity. */
    var pendingOpacity: seq<(string, NumberValue)>
    /** `pendingVisRef`: layer id to requested visibility. */
    var pendingVisibility: seq<(string, bool)>
    /** `timerRef.current`: the id of the last debounce timer armed. */
    var timer: Option<nat>
    /** Browser timers of this queue that are still due to fire. */
    var scheduled: set<nat>
    /** The id the browser hands out for the next timer (ids are positive). */
    var nextTimer: nat
    /** The layer calls made on the map, in order. */
    var calls: seq<Command>

    /** One entry per layer in each buffer, and no timer due except the one `timerRef` holds. */
    ghost predicate Valid()
      reads this
    {
      && UniqueKeys(pendingOpacity) && UniqueKeys(pendingVisibility)
      && nextTimer >= 1
      && (timer.Some? ==> 1 <= timer.value < nextTimer)
      && (forall t :: t in scheduled ==> timer == Some(t))
    }

    constructor ()
      ensures Valid()
      ensures pendingOpacity == [] && pendingVisibility == [] && timer == None && scheduled == {} && calls == []
    {
      pendingOpacity, pendingVisibility := [], [];
      timer, scheduled, nextTimer := None, {}, 1;
      calls := [];
    }

    /** Cancels the armed timer, if any, and arms a fresh one. */
    method Rearm()
      requires Valid()
      modifies this`timer, this`scheduled, this`nextTimer
      ensures Valid()
      ensures timer == Some(old(nextTimer)) && nextTimer == old(nextTimer) + 1
      ensures scheduled == {old(nextTimer)}
    {
      if timer.Some? {
        scheduled := scheduled - {timer.value};
      }
      timer := Some(nextTimer);
      scheduled := scheduled + {nextTimer};
      nextTimer := nextTimer + 1;
    }

    /** `setLayerOpacity`: overwrite the pending value for the layer and restart the debounce. */
    method SetLayerOpacity(layerId: string, opacity: NumberValue)
      requires Valid()
      modifies this
      ensures Valid()
      ensures pendingOpacity == Put(old(pendingOpacity), layerId, opacity)
      ensures pendingVisibility == old(pendingVisibility) && calls == old(calls)
      ensures timer == Some(old(nextTimer)) && scheduled == {old(nextTimer)}
    {
      pendingOpacity := Put(pendingOpacity, layerId, opacity);
      Rearm();
    }

    /** `setLayerVisibility`: store `!!visible` for the layer and restart the debounce. */
    method SetLayerVisibility(layerId: string, visible: JsValue)
      requires Valid()
      modifies this
      ensures Valid()
      ensures pendingVisibility == Put(old(pendingVisibility), layerId, visible.Truthy())
      ensures pendingOpacity == old(pendingOpacity) && calls == old(calls)
      ensures timer == Some(old(nextTimer)) && scheduled == {old(nextTimer)}
    {
      pendingVisibility := Put(pendingVisibility, layerId, visible.Truthy());
      Rearm();
    }

    /** The debounce timer fires and runs `flush`. */
    method TimerFires(t: nat, env: MapEnv)
      requires Valid() && t in scheduled
      modifies this
      ensures Valid() && scheduled == {}
      ensures !env.present ==>
        && pendingOpacity == old(pendingOpacity) && pendingVisibility == old(pendingVisibility)
        && calls == old(calls) && timer == old(timer)
      ensures env.present ==>
        && pendingOpacity == [] && pendingVisibility == [] && timer == None
        && calls == old(calls) + VisibilityBatch(env, old(pendingVisibility)) + OpacityBatch(env, old(pendingOpacity))
    {
      scheduled := scheduled - {t};
      Flush(env);
    }

    /** `flush`: without a map nothing happens; otherwise the timer is cleared, both buffers
        are snapshotted and emptied, every visibility command is applied and only then every
        opacity command. */
    method Flush(env: MapEnv)
      requires Valid()
      modifies this
      ensures Valid() && nextTimer == old(nextTimer)
      ensures !env.present ==>
        && pendingOpacity == old(pendingOpacity) && pendingVisibility == old(pendingVisibility)
        && calls == old(calls) && timer == old(timer) && scheduled == old(scheduled)
      ensures env.present ==>
        && pendingOpacity == [] && pendingVisibility == []
        && timer == None && scheduled == {}
        && calls == old(calls) + VisibilityBatch(env, old(pendingVisibility)) + OpacityBatch(env, old(pendingOpacity))
    {
      if !env.present {
        return;
      }
      if timer.Some? {
        scheduled := scheduled - {timer.value};
        timer := None;
      }
      var opacityEntries := pendingOpacity;
      pendingOpacity := [];
      var visEntries := pendingVisibility;
      pendingVisibility := [];
      ApplyVisibility(env, visEntries);
      ApplyOpacity(env, opacityEntries);
    }

    /** The visibility phase of `flush`: each snapshot entry in turn. */
    method ApplyVisibility(env: MapEnv, entries: seq<(string, bool)>)
      modifies this`calls
      ensures calls == old(calls) + VisibilityBatch(env, entries)
    {
      var i := 0;
      while i < |entries|
        invariant 0 <= i <= |entries|
        invariant old(calls) + VisibilityBatch(env, entries) == calls + VisibilityBatch(env, entries[i..])
      {
        var attempt := SafeSetVisibility(env, entries[i].0, entries[i].1);
        var sent := if attempt.Some? then [attempt.value] else [];
        assert entries[i..][1..] == entries[i + 1..];
        assert VisibilityBatch(env, entries[i..]) == sent + VisibilityBatch(env, entries[i + 1..]);
        calls := calls + sent;
        i := i + 1;
      }
      assert entries[i..] == [];
    }

    /** The opacity phase of `flush`, started once the visibility phase is over. */
    method ApplyOpacity(env: MapEnv, entries: seq<(string, NumberValue)>)
      modifies this`calls
      ensures calls == old(calls) + OpacityBatch(env, entries)
    {
      var j := 0;
      while j < |entries|
        invariant 0 <= j <= |entries|
        invariant old(calls) + OpacityBatch(env, entries) == calls + OpacityBatch(env, entries[j..])
      {
        assert entries[j..][1..] == entries[j + 1..];
        match SafeSetRasterOpacity(env, entries[j].0, Num(FlushScale(entries[j].1))) {
          case Some(c) => calls := calls + [c];
          case None =>
        }
        j := j + 1;
      }
      assert entries[j..] == [];
    }

    /** Unmount cleanup: the armed timer is cleared and both buffers are discarded unapplied. */
    method Unmount()
      requires Valid()
      modifies this
      ensures Valid() && scheduled == {}
      ensures pendingOpacity == [] && pendingVisibility == []
      ensures calls == old(calls) && timer == old(timer)
    {
      if timer.Some? {
        scheduled := scheduled - {timer.value};
      }
      pendingOpacity, pendingVisibility := [], [];
    }
  }

  /** The shared debounce: a valid queue never has more than one flush due. */
  lemma AtMostOneFlushDue(q: LayerCommandQueue)
    requires q.Valid()
    ensures |q.scheduled| <= 1
  {
    if q.timer.Some? {
      assert q.scheduled == {} || q.scheduled == {q.timer.value};
    } else {
      assert q.scheduled == {};
    }
  }
}
