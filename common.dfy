/** Values shared by the widget's modules. */
module Common {

  datatype Option<+T> = None | Some(value: T)

  /** A value or the error the source would have thrown. */
  datatype Result<+T, +E> = Ok(value: T) | Err(error: E)

  /** A geographic or projected coordinate pair. */
  datatype Coord = Coord(x: real, y: real)

  /** A JavaScript value that is a string, `null` or `undefined`. Truthiness and the key it
      becomes when it is used as an object property follow JavaScript. */
  datatype JsId = Undefined | Null | Str(s: string)
  {
    predicate Truthy() { Str? && s != "" }

    /** The property name JavaScript converts this value to (`obj[undefined]` is `obj["undefined"]`). */
    function Key(): string
    {
      match this
      case Undefined => "undefined"
      case Null => "null"
      case Str(s) => s
    }
  }

  /** An arbitrary JavaScript value, as far as its truthiness matters (`!!value`). */
  datatype JsValue = JsUndefined | JsNull | JsBool(b: bool) | JsNumber(n: real) | JsNaN | JsString(str: string)
  {
    predicate Truthy()
    {
      match this
      case JsUndefined => false
      case JsNull => false
      case JsBool(b) => b
      case JsNumber(n) => n != 0.0
      case JsNaN => false
      case JsString(str) => str != ""
    }
  }

  /** `x ?? null` for an optional string property. */
  function OrNull(o: Option<string>): (r: JsId)
    ensures r.Str? <==> o.Some?
    ensures o.Some? ==> r.s == o.value
  {
    match o
    case Some(s) => Str(s)
    case None => Null
  }

  /** The first position of `x` in `s`, as `Array.prototype.indexOf` finds it. */
  function IndexOf<T(==)>(s: seq<T>, x: T): (r: Option<nat>)
    ensures r.None? <==> x !in s
    ensures r.Some? ==> r.value < |s| && s[r.value] == x && x !in s[..r.value]
  {
    if |s| == 0 then None
    else if s[0] == x then Some(0)
    else match IndexOf(s[1..], x)
      case None => None
      case Some(i) => assert s[1..][..i] == s[1..i + 1]; Some(i + 1)
  }

  predicate NoDuplicates<T(==)>(s: seq<T>)
  {
    forall i, j :: 0 <= i < j < |s| ==> s[i] != s[j]
  }

  /** An element that occurs exactly once is found where it occurs. */
  lemma IndexOfUnique<T>(s: seq<T>, x: T, p: nat)
    requires p < |s| && s[p] == x
    requires forall j :: 0 <= j < |s| && j != p ==> s[j] != x
    ensures IndexOf(s, x) == Some(p)
  {
    var r := IndexOf(s, x);
    assert s[r.value] == x;
  }

  lemma IndexOfNoDuplicates<T>(s: seq<T>, i: nat)
    requires NoDuplicates(s) && i < |s|
    ensures IndexOf(s, s[i]) == Some(i)
  {
    var r := IndexOf(s, s[i]);
    assert s[r.value] == s[i];
    assert forall k :: 0 <= k < r.value ==> s[..r.value][k] == s[k];
  }

  /** An insertion-ordered dictionary, as a JavaScript `Map` keeps one: (key, value) entries
      in the order their keys were first set. */
  predicate UniqueKeys<K(==), V>(s: seq<(K, V)>)
  {
    forall i, j :: 0 <= i < j < |s| ==> s[i].0 != s[j].0
  }

  function KeySet<K, V>(s: seq<(K, V)>): set<K>
  {
    set i | 0 <= i < |s| :: s[i].0
  }

  /** `m.get(k)`: the value of the first entry for `k`. */
  function Lookup<K(==), V>(s: seq<(K, V)>, k: K): (r: Option<V>)
    ensures r.None? <==> k !in KeySet(s)
  {
    if |s| == 0 then None
    else if s[0].0 == k then Some(s[0].1)
    else KeySetCons(s); Lookup(s[1..], k)
  }

  /** `m.set(k, v)`: an existing key keeps its place and takes the new value; a new key is
      appended. */
  function Put<K(==,!new), V>(s: seq<(K, V)>, k: K, v: V): (r: seq<(K, V)>)
    ensures Lookup(r, k) == Some(v)
    ensures forall k' :: k' != k ==> Lookup(r, k') == Lookup(s, k')
    ensures KeySet(r) == KeySet(s) + {k}
    ensures |r| == if k in KeySet(s) then |s| else |s| + 1
    ensures UniqueKeys(s) ==> UniqueKeys(r)
  {
    if |s| == 0 then
      KeySetCons([(k, v)]);
      [(k, v)]
    else if s[0].0 == k then
      var r := [(k, v)] + s[1..];
      assert r[1..] == s[1..];
      KeySetCons(s);
      KeySetCons(r);
      UniqueKeysCons(s);
      UniqueKeysCons(r);
      r
    else
      var rest := Put(s[1..], k, v);
      var r := [s[0]] + rest;
      assert r[1..] == rest;
      KeySetCons(s);
      KeySetCons(r);
      UniqueKeysCons(s);
      UniqueKeysCons(r);
      r
  }

  /** A dictionary has one entry per key exactly when its first key does not recur and the
      rest has one entry per key. */
  lemma UniqueKeysCons<K, V>(s: seq<(K, V)>)
    requires |s| > 0
    ensures UniqueKeys(s) <==> UniqueKeys(s[1..]) && s[0].0 !in KeySet(s[1..])
  {
    var t := s[1..];
    if UniqueKeys(t) && s[0].0 !in KeySet(t) {
      forall i, j | 0 <= i < j < |s|
        ensures s[i].0 != s[j].0
      {
        assert s[j] == t[j - 1];
        if i > 0 {
          assert s[i] == t[i - 1];
        }
      }
    }
    if UniqueKeys(s) {
      forall i, j | 0 <= i < j < |t|
        ensures t[i].0 != t[j].0
      {
        assert t[i] == s[i + 1] && t[j] == s[j + 1];
      }
      forall i | 0 <= i < |t|
        ensures t[i].0 != s[0].0
      {
        assert t[i] == s[i + 1];
      }
    }
  }

  lemma KeySetCons<K, V>(s: seq<(K, V)>)
    requires |s| > 0
    ensures KeySet(s) == {s[0].0} + KeySet(s[1..])
  {
    forall x | x in KeySet(s) ensures x in {s[0].0} + KeySet(s[1..]) {
      var i :| 0 <= i < |s| && s[i].0 == x;
      if i > 0 { assert s[1..][i - 1].0 == x; }
    }
    forall x | x in KeySet(s[1..]) ensures x in KeySet(s) {
      var i :| 0 <= i < |s| - 1 && s[1..][i].0 == x;
      assert s[i + 1].0 == x;
    }
  }

  /** Setting a key twice leaves only the second value: last write wins. */
  lemma {:induction false} PutPut<K(!new), V>(s: seq<(K, V)>, k: K, a: V, b: V)
    ensures Put(Put(s, k, a), k, b) == Put(s, k, b)
  {
    if |s| > 0 && s[0].0 != k {
      PutPut(s[1..], k, a, b);
      assert Put(s, k, a)[1..] == Put(s[1..], k, a);
    }
  }

  /** Every entry of a dictionary with unique keys is what a lookup of its key finds. */
  lemma {:induction false} LookupEntry<K, V>(s: seq<(K, V)>, i: nat)
    requires UniqueKeys(s) && i < |s|
    ensures Lookup(s, s[i].0) == Some(s[i].1)
  {
    if i > 0 {
      LookupEntry(s[1..], i - 1);
    }
  }

  /** A GeoJSON geometry, as far as the widget inspects it. */
  datatype Geometry = Point(at: Coord) | LineString(path: seq<Coord>) | OtherGeometry

  /** A GeoJSON feature: its `properties.id` (None when absent, which `?? null` makes null),
      its `properties.title`, and its geometry. */
  datatype Feature = Feature(id: Option<string>, title: Option<string>, geometry: Geometry)

  /** The position of the first feature whose id is `id`. */
  function FeatureIndex(fs: seq<Feature>, id: string): (r: Option<nat>)
    ensures r.None? <==> forall i :: 0 <= i < |fs| ==> fs[i].id != Some(id)
    ensures r.Some? ==> r.value < |fs| && fs[r.value].id == Some(id)
    ensures r.Some? ==> forall j :: 0 <= j < r.value ==> fs[j].id != Some(id)
  {
    if |fs| == 0 then None
    else if fs[0].id == Some(id) then Some(0)
    else match FeatureIndex(fs[1..], id)
      case None => None
      case Some(i) => Some(i + 1)
  }

  /** `features.find((f) => (f.properties?.id ?? null) === id)` */
  function FindFeature(fs: seq<Feature>, id: string): (r: Option<Feature>)
    ensures r.None? <==> forall i :: 0 <= i < |fs| ==> fs[i].id != Some(id)
    ensures r.Some? ==> r.value in fs && r.value.id == Some(id)
  {
    match FeatureIndex(fs, id)
    case None => None
    case Some(i) => Some(fs[i])
  }

  lemma ProductNonNegative(a: real, b: real)
    requires a >= 0.0 && b >= 0.0
    ensures a * b >= 0.0
  {
  }

  /** Comparing a quotient by a positive divisor is comparing the dividend with the scaled bound. */
  lemma QuotientCompare(a: real, d: real, c: real)
    requires d > 0.0
    ensures a / d < c <==> a < c * d
    ensures a / d > c <==> a > c * d
  {
    var q := a / d;
    assert q * d == a;
    assert a - c * d == (q - c) * d;
    ScaleSign(q - c, d);
  }

  lemma ScaleSign(x: real, d: real)
    requires d > 0.0
    ensures x < 0.0 <==> x * d < 0.0
    ensures x > 0.0 <==> x * d > 0.0
  {
    if x < 0.0 {
      ProductNonNegative(-x, d);
      assert -x * d != 0.0;
    } else if x > 0.0 {
      ProductNonNegative(x, d);
      assert x * d != 0.0;
    }
  }
}
