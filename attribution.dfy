/** The page-wide attribution list shown in one compact control (lib/attribution.ts). */
module Attribution {
  import opened Common

  /** `Array.prototype.join`: the items with `sep` between neighbours. */
  function Join(xs: seq<string>, sep: string): string
  {
    if |xs| == 0 then ""
    else if |xs| == 1 then xs[0]
    else xs[0] + sep + Join(xs[1..], sep)
  }

  /** The control's `customAttribution` text: a line break, then the list one per line. */
  function CustomAttribution(xs: seq<string>): (r: string)
    ensures |r| >= 4 && r[..4] == "<br>"
  {
    "<br>" + Join(xs, "<br>")
  }

  /** Whether `t` occurs in `s` at offset `at`. */
  predicate OccursAt(s: string, t: string, at: nat)
  {
    at + |t| <= |s| && s[at..at + |t|] == t
  }

  /** Joining one more item extends the text by the separator and the item. */
  lemma {:induction false} JoinSnoc(xs: seq<string>, x: string, sep: string)
    ensures Join(xs + [x], sep) == if xs == [] then x else Join(xs, sep) + sep + x
    decreases |xs|
  {
    if |xs| > 1 {
      calc {
        Join(xs + [x], sep);
        { assert (xs + [x])[1..] == xs[1..] + [x]; }
        xs[0] + sep + Join(xs[1..] + [x], sep);
        { JoinSnoc(xs[1..], x, sep); }
        xs[0] + sep + (Join(xs[1..], sep) + sep + x);
      }
    } else if |xs| == 1 {
      assert (xs + [x])[1..] == [x];
    }
  }

  /** An occurrence survives putting text in front of it. */
  lemma OccursAfter(p: string, s: string, t: string, at: nat)
    requires OccursAt(s, t, at)
    ensures OccursAt(p + s, t, |p| + at)
  {
    assert (p + s)[|p| + at..|p| + at + |t|] == s[at..at + |t|];
  }

  /** Every item of the list can be found in the joined text. */
  lemma {:induction false} JoinMentionsEach(xs: seq<string>, sep: string, i: nat)
    requires i < |xs|
    ensures exists at :: OccursAt(Join(xs, sep), xs[i], at)
    decreases |xs|
  {
    if |xs| == 1 {
      assert OccursAt(Join(xs, sep), xs[i], 0);
    } else if i == 0 {
      assert (xs[0] + sep + Join(xs[1..], sep))[..|xs[0]|] == xs[0];
      assert OccursAt(Join(xs, sep), xs[i], 0);
    } else {
      JoinMentionsEach(xs[1..], sep, i - 1);
      var at :| OccursAt(Join(xs[1..], sep), xs[1..][i - 1], at);
      OccursAfter(xs[0] + sep, Join(xs[1..], sep), xs[i], at);
    }
  }

  /** A new attribution extends the control's text by one line. */
  lemma CustomAttributionGrows(xs: seq<string>, x: string)
    requires xs != []
    ensures CustomAttribution(xs + [x]) == CustomAttribution(xs) + "<br>" + x
  {
    JoinSnoc(xs, x, "<br>");
  }

  /** The list without any occurrence of `c`, as `removeControl` leaves the map's controls. */
  function Without<T(==)>(cs: seq<T>, c: T): (r: seq<T>)
    ensures c !in r && |r| <= |cs|
    ensures forall i :: 0 <= i < |cs| && cs[i] != c ==> cs[i] in r
    ensures forall i :: 0 <= i < |r| ==> r[i] in cs
  {
    if cs == [] then []
    else if cs[0] == c then Without(cs[1..], c)
    else [cs[0]] + Without(cs[1..], c)
  }

  /** A maplibre attribution control with its fixed text. */
  class AttributionControl {
    const customAttribution: string

    constructor (customAttribution: string)
      ensures this.customAttribution == customAttribution
    {
      this.customAttribution := customAttribution;
    }
  }

  /** The module-level `attributions` list and `attributionControl`, with the attribution
      controls currently on the map. */
  class Attributions {
    var attributions: seq<string>
    var control: AttributionControl?
    var mapControls: seq<AttributionControl>

    /** The list has no duplicates, a control exists once something was attributed, and the
        map shows the current control and no other. */
    ghost predicate Valid()
      reads this
    {
      && NoDuplicates(attributions)
      && (control == null <==> attributions == [])
      && mapControls == (if control == null then [] else [control])
      && (control != null ==> control.customAttribution == CustomAttribution(attributions))
    }

    constructor ()
      ensures Valid() && attributions == [] && control == null && mapControls == []
    {
      attributions, control, mapControls := [], null, [];
    }

    /** `addAttribution`: appends a new attribution (a known one is not repeated), removes the
        old control and installs a fresh one listing them all. */
    method Add(attribution: string)
      requires Valid()
      modifies this
      ensures Valid()
      ensures attributions == if attribution in old(attributions) then old(attributions) else old(attributions) + [attribution]
      ensures attribution in attributions
      ensures control != null && fresh(control) && mapControls == [control]
      ensures old(control) != null && attribution !in old(attributions) ==>
        control.customAttribution == old(control.customAttribution) + "<br>" + attribution
      ensures attribution in old(attributions) ==> control.customAttribution == old(CustomAttribution(attributions))
    {
      if attribution !in attributions {
        if control != null {
          CustomAttributionGrows(attributions, attribution);
        }
        attributions := attributions + [attribution];
      }
      if control != null {
        mapControls := Without(mapControls, control);
      }
      control := new AttributionControl(CustomAttribution(attributions));
      mapControls := mapControls + [control];
    }
  }

  /** Every attribution added so far appears in the installed control's text. */
  lemma ControlListsAll(a: Attributions, i: nat)
    requires a.Valid() && a.control != null && i < |a.attributions|
    ensures exists at :: OccursAt(a.control.customAttribution, a.attributions[i], at)
  {
    JoinMentionsEach(a.attributions, "<br>", i);
    var at :| OccursAt(Join(a.attributions, "<br>"), a.attributions[i], at);
    OccursAfter("<br>", Join(a.attributions, "<br>"), a.attributions[i], at);
  }
}
