/** Reserved stacking positions for the widget's layers (lib/zorder.ts). */
module ZOrder {
  import opened Common

  function DigitChar(d: nat): char
    requires d < 10
  {
    (('0' as int) + d) as char
  }

  /** Decimal rendering of a natural number, as a template literal prints it. */
  function NatToString(n: nat): (r: string)
    ensures |r| >= 1
    ensures n >= 10 ==> |r| >= 2
  {
    if n < 10 then [DigitChar(n)] else NatToString(n / 10) + [DigitChar(n % 10)]
  }

  lemma {:induction false} NatToStringInjective(a: nat, b: nat)
    requires NatToString(a) == NatToString(b)
    ensures a == b
  {
    if a >= 10 && b >= 10 {
      var sa, sb := NatToString(a), NatToString(b);
      assert sa[|sa| - 1] == DigitChar(a % 10) && sb[|sb| - 1] == DigitChar(b % 10);
      assert sa[..|sa| - 1] == NatToString(a / 10);
      assert sb[..|sb| - 1] == NatToString(b / 10);
      NatToStringInjective(a / 10, b / 10);
    }
  }

  /** The id `z-<i>` of the placeholder layer for order position `i`. */
  function PlaceholderId(i: nat): string
  {
    "z-" + NatToString(i)
  }

  lemma PlaceholderIdInjective(i: nat, j: nat)
    requires PlaceholderId(i) == PlaceholderId(j)
    ensures i == j
  {
    assert PlaceholderId(i)[2..] == NatToString(i);
    assert PlaceholderId(j)[2..] == NatToString(j);
    NatToStringInjective(i, j);
  }

  /** The placeholders `z-0` .. `z-(n-1)`, lowest first. */
  function Placeholders(n: nat): (r: seq<string>)
    ensures |r| == n
  {
    seq(n, i requires 0 <= i < n => PlaceholderId(i))
  }

  /** `getPosition` throws this for an id outside the declared order. */
  datatype PositionError = NotSortable(layerId: string)

  /** The stack `addLayer(id, before)` leaves: `id` on top when no `before` is given, else
      just below it; a duplicate id or a missing `before` leaves the stack as it was. */
  function AddedLayer(layers: seq<string>, id: string, before: Option<string>): seq<string>
  {
    if id in layers || (before.Some? && before.value !in layers) then layers
    else if before.None? then layers + [id]
    else
      var j := IndexOf(layers, before.value).value;
      layers[..j] + [id] + layers[j..]
  }

  /** The stack after the `load` loop has added the placeholders `z-(n-1)` down to `z-k`
      to `base`, each below the one added before it. */
  function Reserved(base: seq<string>, n: nat, k: nat): seq<string>
    requires k <= n
    decreases n - k
  {
    if k == n then base
    else AddedLayer(Reserved(base, n, k + 1), PlaceholderId(k), if k == n - 1 then None else Some(PlaceholderId(k + 1)))
  }

  /** The map's layer stack, bottom first, as far as `addLayer` shapes it. */
  class LayerStack {
    var layers: seq<string>
    var sources: set<string>

    constructor (layers: seq<string>, sources: set<string>)
      ensures this.layers == layers && this.sources == sources
    {
      this.layers := layers;
      this.sources := sources;
    }

    /** `addLayer(layer, beforeId)`: on top when no `beforeId` is given, else just below it;
        a duplicate id or a missing `beforeId` is refused and nothing changes. */
    method AddLayer(id: string, before: Option<string>) returns (added: bool)
      modifies this`layers
      ensures added <==> id !in old(layers) && (before.Some? ==> before.value in old(layers))
      ensures !added ==> layers == old(layers)
      ensures added && before.None? ==> layers == old(layers) + [id]
      ensures added && before.Some? ==>
        var j := IndexOf(old(layers), before.value).value;
        layers == old(layers)[..j] + [id] + old(layers)[j..]
      ensures layers == AddedLayer(old(layers), id, before)
    {
      if id in layers || (before.Some? && before.value !in layers) {
        return false;
      }
      match before {
        case None =>
          layers := layers + [id];
        case Some(b) =>
          var j := IndexOf(layers, b).value;
          layers := layers[..j] + [id] + layers[j..];
      }
      added := true;
    }
  }

  class ZOrder {
    /** Layer ids, lowest to highest. */
    const order: seq<string>

    constructor (order: seq<string>)
      ensures this.order == order
    {
      this.order := order;
    }

    /** The map's `load` handler: adds the `empty` source and then one placeholder per order
        entry, from the highest index down, each just below the one added before it. On a
        stack without placeholders they end up on top, `z-0` lowest (`ReservedOnTop`); on
        any stack every placeholder ends up present (`ReservedCovers`). */
    method OnLoad(style: LayerStack)
      modifies style
      ensures style.layers == Reserved(old(style.layers), |order|, 0)
      ensures (forall i: nat :: PlaceholderId(i) !in old(style.layers)) ==>
        style.layers == old(style.layers) + Placeholders(|order|)
      ensures style.sources == old(style.sources) + {"empty"}
    {
      style.sources := style.sources + {"empty"};
      ghost var base := style.layers;
      var n := |order|;
      var k := n;
      while k > 0
        invariant 0 <= k <= n
        invariant style.layers == Reserved(base, n, k)
        invariant style.sources == old(style.sources) + {"empty"}
      {
        var i := k - 1;
        var before := if i == n - 1 then None else Some(PlaceholderId(i + 1));
        var added := style.AddLayer(PlaceholderId(i), before);
        k := i;
      }
      if forall i: nat :: PlaceholderId(i) !in base {
        ReservedOnTop(base, n, 0);
        assert Placeholders(n)[0..] == Placeholders(n);
      }
    }

    /** `getPosition`: the placeholder of the first occurrence of the id in the order. */
    function GetPosition(layerId: string): (r: Result<string, PositionError>)
      ensures r.Err? <==> layerId !in order
      ensures r.Err? ==> r.error == NotSortable(layerId)
      ensures r.Ok? ==>
        exists i :: 0 <= i < |order| && order[i] == layerId && layerId !in order[..i] && r.value == PlaceholderId(i)
    {
      match IndexOf(order, layerId)
      case None => Err(NotSortable(layerId))
      case Some(i) => Ok(PlaceholderId(i))
    }
  }

  /** On a stack without placeholders, the `load` loop down to `z-k` stacks
      `z-k` .. `z-(n-1)` on top of it in that order. */
  lemma {:induction false} ReservedOnTop(base: seq<string>, n: nat, k: nat)
    requires forall j: nat :: PlaceholderId(j) !in base
    requires k <= n
    ensures Reserved(base, n, k) == base + Placeholders(n)[k..]
    decreases n - k
  {
    if k < n {
      ReservedOnTop(base, n, k + 1);
      OnLoadStep(base, n, k + 1);
    }
  }

  /** Whatever the stack held, after the `load` loop down to `z-k` every placeholder
      `z-k` .. `z-(n-1)` is in it, and no layer it held is gone. */
  lemma {:induction false} ReservedCovers(base: seq<string>, n: nat, k: nat)
    requires k <= n
    ensures forall i :: k <= i < n ==> PlaceholderId(i) in Reserved(base, n, k)
    ensures forall x :: x in base ==> x in Reserved(base, n, k)
    decreases n - k
  {
    if k < n {
      ReservedCovers(base, n, k + 1);
      var layers := Reserved(base, n, k + 1);
      var before := if k == n - 1 then None else Some(PlaceholderId(k + 1));
      AddedLayerKeeps(layers, PlaceholderId(k), before);
    }
  }

  /** `addLayer` removes nothing, and the id is in the stack afterwards unless its
      `beforeId` was missing. */
  lemma AddedLayerKeeps(layers: seq<string>, id: string, before: Option<string>)
    ensures forall x :: x in layers ==> x in AddedLayer(layers, id, before)
    ensures (before.None? || before.value in layers) ==> id in AddedLayer(layers, id, before)
  {
    if id !in layers && before.Some? && before.value in layers {
      var j := IndexOf(layers, before.value).value;
      assert layers == layers[..j] + layers[j..];
    }
  }

  /** A stack that already holds `z-0` keeps it where it was: with two ordered layers over
      `["z-0", "water"]`, only `z-1` is added, on top. */
  lemma ClashingPlaceholderStays()
    ensures Reserved(["z-0", "water"], 2, 0) == ["z-0", "water", "z-1"]
  {
    assert PlaceholderId(0) == "z-0" && PlaceholderId(1) == "z-1";
    assert Reserved(["z-0", "water"], 2, 1) == ["z-0", "water", "z-1"];
  }

  /** One turn of the `load` loop: placeholder `k - 1` is new to the stack, and adding it on
      top (for the highest index) or just below placeholder `k` extends the placeholders
      already added downwards by one. */
  lemma OnLoadStep(base: seq<string>, n: nat, k: nat)
    requires forall j: nat :: PlaceholderId(j) !in base
    requires 0 < k <= n
    ensures var layers := base + Placeholders(n)[k..];
      && PlaceholderId(k - 1) !in layers
      && (k == n ==> layers + [PlaceholderId(k - 1)] == base + Placeholders(n)[k - 1..])
      && (k < n ==>
            && PlaceholderId(k) in layers
            && IndexOf(layers, PlaceholderId(k)) == Some(|base|)
            && layers[..|base|] + [PlaceholderId(k - 1)] + layers[|base|..] == base + Placeholders(n)[k - 1..])
  {
    var layers := base + Placeholders(n)[k..];
    PlaceholdersAbsent(base, n, k, k - 1);
    assert Placeholders(n)[k - 1..] == [PlaceholderId(k - 1)] + Placeholders(n)[k..];
    if k < n {
      PlaceholderAt(base, n, k, k);
      assert layers[..|base|] == base;
      assert layers[|base|..] == Placeholders(n)[k..];
    }
  }

  lemma PlaceholdersAbsent(base: seq<string>, n: nat, k: nat, i: nat)
    requires forall j: nat :: PlaceholderId(j) !in base
    requires i < k <= n
    ensures PlaceholderId(i) !in base + Placeholders(n)[k..]
  {
    if PlaceholderId(i) in Placeholders(n)[k..] {
      var m :| 0 <= m < n - k && Placeholders(n)[k..][m] == PlaceholderId(i);
      PlaceholderIdInjective(k + m, i);
    }
  }

  /** In `base + Placeholders(n)[k..]`, the placeholder for position `m` occurs only at
      offset `m - k` after the base layers. */
  lemma PlaceholderAt(base: seq<string>, n: nat, k: nat, m: nat)
    requires PlaceholderId(m) !in base
    requires k <= m < n
    ensures IndexOf(base + Placeholders(n)[k..], PlaceholderId(m)) == Some(|base| + m - k)
  {
    var s := base + Placeholders(n)[k..];
    var p := |base| + m - k;
    var x := PlaceholderId(m);
    assert s[p] == Placeholders(n)[m] == x;
    forall j | 0 <= j < |s| && j != p
      ensures s[j] != x
    {
      PlaceholderNotElsewhere(base, n, k, m, j);
    }
    IndexOfUnique(s, x, p);
  }

  lemma PlaceholderNotElsewhere(base: seq<string>, n: nat, k: nat, m: nat, j: nat)
    requires PlaceholderId(m) !in base
    requires k <= m < n && j < |base| + n - k && j != |base| + m - k
    ensures (base + Placeholders(n)[k..])[j] != PlaceholderId(m)
  {
    if j >= |base| {
      var i := k + j - |base|;
      assert (base + Placeholders(n)[k..])[j] == Placeholders(n)[i] == PlaceholderId(i);
      if PlaceholderId(i) == PlaceholderId(m) {
        PlaceholderIdInjective(i, m);
      }
    }
  }

  /** After the placeholders are added, the position `getPosition` names for a layer sits
      below the one it names for every layer later in the order: real layers inserted before
      their placeholders stack in the declared order. */
  lemma StackFollowsOrder(z: ZOrder, base: seq<string>, a: string, b: string)
    requires forall j: nat :: PlaceholderId(j) !in base
    requires a in z.order && b in z.order
    requires IndexOf(z.order, a).value < IndexOf(z.order, b).value
    ensures z.GetPosition(a).Ok? && z.GetPosition(b).Ok?
    ensures var s := base + Placeholders(|z.order|);
      && z.GetPosition(a).value in s && z.GetPosition(b).value in s
      && IndexOf(s, z.GetPosition(a).value).value < IndexOf(s, z.GetPosition(b).value).value
  {
    var n := |z.order|;
    var ia, ib := IndexOf(z.order, a).value, IndexOf(z.order, b).value;
    assert Placeholders(n)[0..] == Placeholders(n);
    PlaceholderAt(base, n, 0, ia);
    PlaceholderAt(base, n, 0, ib);
  }
}
