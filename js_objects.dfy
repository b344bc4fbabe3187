/**
 * A model of the JavaScript values the add-ons handle: strings, booleans,
 * `undefined`, `null` and plain objects.  A plain object is its list of own
 * properties in the order they were created; a key occurs at most once
 * (`Unique`).  For keys that are not array indices this is also the order in
 * which JavaScript enumerates them; array-index keys (such as "0") are
 * enumerated first, in ascending numeric order, which this model does not
 * capture.
 *
 * Object spread (`{...t, ...s}`) is modelled as ECMAScript's CopyDataProperties:
 * every own property of the source, in order, is defined on the target with
 * CreateDataProperty, which overwrites an existing key where it stands and
 * adds a new key after the existing ones.  Every property counts, including
 * one whose value is `undefined`.
 */
module JsObjects {
  import opened Wrappers

  datatype Value =
    | Undefined
    | Null
    | Bool(b: bool)
    | Str(s: string)
    | Obj(props: seq<Property>)

  datatype Property = Property(key: string, value: Value)

  /** The values `??` replaces by its right operand. */
  predicate IsNullish(v: Value) {
    v.Undefined? || v.Null?
  }

  /** `a ?? b`: the right operand only when the left one is `null` or `undefined`. */
  function Coalesce(a: Value, b: Value): (r: Value)
    ensures IsNullish(a) ==> r == b
    ensures !IsNullish(a) ==> r == a
    ensures r == b <==> (IsNullish(a) || a == b)
  {
    match a
    case Undefined => b
    case Null => b
    case _ => a
  }

  /** The keys of an object's own properties. */
  function Keys(o: seq<Property>): set<string> {
    if o == [] then {} else {o[0].key} + Keys(o[1..])
  }

  /** No key occurs twice: every plain object satisfies this. */
  predicate Unique(o: seq<Property>) {
    o == [] || (o[0].key !in Keys(o[1..]) && Unique(o[1..]))
  }

  /** Reading property `k`: the value of its property, if the object has one. */
  function Get(o: seq<Property>, k: string): (r: Option<Value>)
    ensures r.Some? <==> k in Keys(o)
  {
    if o == [] then None
    else if o[0].key == k then Some(o[0].value)
    else Get(o[1..], k)
  }

  /** In a plain object, reading the key of the `i`-th property gives that property's value. */
  lemma {:induction false} GetAt(o: seq<Property>, i: nat)
    requires Unique(o) && i < |o|
    ensures Get(o, o[i].key) == Some(o[i].value)
  {
    if i > 0 {
      assert o[1..][i - 1] == o[i];
      GetAt(o[1..], i - 1);
    }
  }

  lemma {:induction false} KeysAppend(a: seq<Property>, b: seq<Property>)
    ensures Keys(a + b) == Keys(a) + Keys(b)
  {
    if a == [] {
      assert a + b == b;
    } else {
      assert (a + b)[1..] == a[1..] + b;
      KeysAppend(a[1..], b);
    }
  }

  /** Looking a key up in two objects laid end to end finds it in the first one that has it. */
  lemma {:induction false} GetAppend(a: seq<Property>, b: seq<Property>, k: string)
    ensures Get(a + b, k) == if k in Keys(a) then Get(a, k) else Get(b, k)
  {
    if a == [] {
      assert a + b == b;
    } else {
      assert (a + b)[1..] == a[1..] + b;
      GetAppend(a[1..], b, k);
    }
  }

  /** `t` with the value of every key that `s` also has taken from `s`, in the order of `t`. */
  function Overwrite(t: seq<Property>, s: seq<Property>): (r: seq<Property>)
    ensures Keys(r) == Keys(t)
  {
    if t == [] then []
    else
      var p := match Get(s, t[0].key)
        case Some(v) => Property(t[0].key, v)
        case None => t[0];
      [p] + Overwrite(t[1..], s)
  }

  /**
   * CreateDataProperty(o, k, v) on a plain object: an existing key keeps its
   * position and takes the new value; a new key is created after the others
   * (the creation order, which is the enumeration order for non-index keys).
   */
  function Define(o: seq<Property>, k: string, v: Value): (r: seq<Property>)
    requires Unique(o)
    ensures k in Keys(o) ==> r == Overwrite(o, [Property(k, v)])
    ensures k !in Keys(o) ==> r == o + [Property(k, v)]
    ensures Keys(r) == Keys(o) + {k}
    ensures Unique(r)
  {
    if o == [] then [Property(k, v)]
    else if o[0].key == k then
      OverwriteUntouched(o[1..], [Property(k, v)]);
      [Property(k, v)] + o[1..]
    else
      var r := [o[0]] + Define(o[1..], k, v);
      assert r[1..] == Define(o[1..], k, v);
      r
  }

  lemma {:induction false} OverwriteUntouched(t: seq<Property>, s: seq<Property>)
    requires Keys(t) !! Keys(s)
    ensures Overwrite(t, s) == t
  {
    if t != [] { OverwriteUntouched(t[1..], s); }
  }

  lemma {:induction false} OverwriteAppend(t: seq<Property>, u: seq<Property>, s: seq<Property>)
    ensures Overwrite(t + u, s) == Overwrite(t, s) + Overwrite(u, s)
  {
    if t == [] {
      assert t + u == u;
    } else {
      assert (t + u)[1..] == t[1..] + u;
      OverwriteAppend(t[1..], u, s);
    }
  }

  /** Overwriting with two objects in turn is overwriting with both, when they share no key. */
  lemma {:induction false} OverwriteTwice(t: seq<Property>, a: seq<Property>, b: seq<Property>)
    requires Keys(a) !! Keys(b)
    ensures Overwrite(Overwrite(t, a), b) == Overwrite(t, a + b)
  {
    if t != [] {
      GetAppend(a, b, t[0].key);
      OverwriteTwice(t[1..], a, b);
    }
  }

  lemma {:induction false} GetDefine(o: seq<Property>, k: string, v: Value, j: string)
    requires Unique(o)
    ensures Get(Define(o, k, v), j) == if j == k then Some(v) else Get(o, j)
  {
    if o != [] && o[0].key != k {
      GetDefine(o[1..], k, v, j);
    }
  }

  /** `{...t, ...s}` once the properties of `t` are in place: copy every property of `s`, in order. */
  function Spread(t: seq<Property>, s: seq<Property>): (r: seq<Property>)
    requires Unique(t)
    ensures Unique(r)
    ensures Keys(r) == Keys(t) + Keys(s)
    decreases |s|
  {
    if s == [] then t
    else Spread(Define(t, s[0].key, s[0].value), s[1..])
  }

  /** After spreading `s` over `t`, a key of `s` has its value from `s`, any other key its value in `t`. */
  lemma {:induction false} GetSpread(t: seq<Property>, s: seq<Property>, k: string)
    requires Unique(t) && Unique(s)
    ensures Get(Spread(t, s), k) == if k in Keys(s) then Get(s, k) else Get(t, k)
    decreases |s|
  {
    if s != [] {
      GetDefine(t, s[0].key, s[0].value, k);
      GetSpread(Define(t, s[0].key, s[0].value), s[1..], k);
    }
  }

  /** The properties of `s` whose key is not in `ks`, in the order of `s`. */
  function Extra(s: seq<Property>, ks: set<string>): (r: seq<Property>)
    ensures Keys(r) == Keys(s) - ks
  {
    if s == [] then []
    else
      var head := if s[0].key in ks then [] else [s[0]];
      KeysAppend(head, Extra(s[1..], ks));
      head + Extra(s[1..], ks)
  }

  lemma {:induction false} ExtraIgnores(s: seq<Property>, ks: set<string>, k: string)
    requires k !in Keys(s)
    ensures Extra(s, ks + {k}) == Extra(s, ks)
  {
    if s != [] { ExtraIgnores(s[1..], ks, k); }
  }

  lemma {:induction false} ExtraAll(s: seq<Property>, ks: set<string>)
    requires Keys(s) !! ks
    ensures Extra(s, ks) == s
  {
    if s != [] {
      ExtraAll(s[1..], ks);
      assert s == [s[0]] + s[1..];
    }
  }

  lemma {:induction false} ExtraNone(s: seq<Property>, ks: set<string>)
    requires Keys(s) <= ks
    ensures Extra(s, ks) == []
  {
    if s != [] { ExtraNone(s[1..], ks); }
  }

  lemma {:induction false} ExtraAppend(a: seq<Property>, b: seq<Property>, ks: set<string>)
    ensures Extra(a + b, ks) == Extra(a, ks) + Extra(b, ks)
  {
    if a == [] {
      assert a + b == b;
    } else {
      assert (a + b)[1..] == a[1..] + b;
      ExtraAppend(a[1..], b, ks);
    }
  }

  /** Overwriting with the first property of `s` and then with the rest is overwriting with `s`. */
  lemma {:induction false} OverwriteHead(t: seq<Property>, s: seq<Property>)
    requires s != [] && s[0].key !in Keys(s[1..])
    ensures Overwrite(Overwrite(t, [s[0]]), s[1..]) == Overwrite(t, s)
  {
    OverwriteTwice(t, [s[0]], s[1..]);
    assert [s[0]] + s[1..] == s;
  }

  /** A first property of `s` whose key `t` lacks ends up after the overwritten `t`. */
  lemma {:induction false} OverwriteHeadNew(t: seq<Property>, s: seq<Property>)
    requires s != [] && s[0].key !in Keys(s[1..]) && s[0].key !in Keys(t)
    ensures Overwrite(t + [s[0]], s[1..]) == Overwrite(t, s) + [s[0]]
  {
    OverwriteAppend(t, [s[0]], s[1..]);
    OverwriteUntouched([s[0]], s[1..]);
    OverwriteUntouched(t, [s[0]]);
    OverwriteHead(t, s);
  }

  /** The inductive step of `SpreadOrder` for a first source key that `t` already has. */
  lemma {:induction false} SpreadOrderStepExisting(t: seq<Property>, s: seq<Property>)
    requires Unique(t) && s != [] && Unique(s) && s[0].key in Keys(t)
    requires var t1 := Define(t, s[0].key, s[0].value);
      Spread(t1, s[1..]) == Overwrite(t1, s[1..]) + Extra(s[1..], Keys(t1))
    ensures Spread(t, s) == Overwrite(t, s) + Extra(s, Keys(t))
  {
    var t1 := Define(t, s[0].key, s[0].value);
    assert s[0] == Property(s[0].key, s[0].value);
    assert t1 == Overwrite(t, [s[0]]);
    OverwriteHead(t, s);
    assert Overwrite(t1, s[1..]) == Overwrite(t, s);
    assert Keys(t1) == Keys(t);
    assert Extra(s, Keys(t)) == Extra(s[1..], Keys(t));
    assert Spread(t, s) == Spread(t1, s[1..]);
  }

  /** Defining a property `t` lacks, then overwriting with the rest of `s`. */
  lemma {:induction false} OverwriteAfterAppend(t: seq<Property>, s: seq<Property>)
    requires Unique(t) && s != [] && Unique(s) && s[0].key !in Keys(t)
    ensures Overwrite(Define(t, s[0].key, s[0].value), s[1..]) == Overwrite(t, s) + [s[0]]
  {
    assert Define(t, s[0].key, s[0].value) == t + [s[0]];
    OverwriteHeadNew(t, s);
  }

  /** The properties of `s` that are new to `t`, split into the first one and the rest. */
  lemma {:induction false} ExtraAfterAppend(t: seq<Property>, s: seq<Property>)
    requires Unique(t) && s != [] && Unique(s) && s[0].key !in Keys(t)
    ensures Extra(s[1..], Keys(Define(t, s[0].key, s[0].value))) == Extra(s[1..], Keys(t))
    ensures Extra(s, Keys(t)) == [s[0]] + Extra(s[1..], Keys(t))
  {
    ExtraIgnores(s[1..], Keys(t), s[0].key);
  }

  /** The inductive step of `SpreadOrder` for a first source key that `t` lacks. */
  lemma {:induction false} SpreadOrderStepNew(t: seq<Property>, s: seq<Property>)
    requires Unique(t) && s != [] && Unique(s) && s[0].key !in Keys(t)
    requires var t1 := Define(t, s[0].key, s[0].value);
      Spread(t1, s[1..]) == Overwrite(t1, s[1..]) + Extra(s[1..], Keys(t1))
    ensures Spread(t, s) == Overwrite(t, s) + Extra(s, Keys(t))
  {
    OverwriteAfterAppend(t, s);
    ExtraAfterAppend(t, s);
  }

  /**
   * The property order spread produces: the keys of `t` where they stand, with
   * the values of `s` where `s` has them, then the new keys of `s` in its order.
   */
  lemma {:induction false} SpreadOrder(t: seq<Property>, s: seq<Property>)
    requires Unique(t) && Unique(s)
    ensures Spread(t, s) == Overwrite(t, s) + Extra(s, Keys(t))
    decreases |s|
  {
    if s == [] {
      OverwriteUntouched(t, s);
    } else {
      SpreadOrder(Define(t, s[0].key, s[0].value), s[1..]);
      if s[0].key in Keys(t) {
        SpreadOrderStepExisting(t, s);
      } else {
        SpreadOrderStepNew(t, s);
      }
    }
  }

  /** Spreading an object into an empty one copies it, keys in the same order. */
  lemma {:induction false} SpreadIntoEmpty(s: seq<Property>)
    requires Unique(s)
    ensures Spread([], s) == s
  {
    SpreadOrder([], s);
    ExtraAll(s, {});
  }

  /** Overwriting `t` from any object that agrees with `s` on the keys of `t`. */
  lemma {:induction false} OverwriteAgree(t: seq<Property>, m: seq<Property>, s: seq<Property>)
    requires Unique(t)
    requires forall k | k in Keys(t) :: Get(m, k) == if k in Keys(s) then Get(s, k) else Get(t, k)
    ensures Overwrite(t, m) == Overwrite(t, s)
  {
    if t != [] {
      assert forall k | k in Keys(t[1..]) :: Get(t, k) == Get(t[1..], k);
      OverwriteAgree(t[1..], m, s);
    }
  }

  /** The keys of `t` in a spread over `t` carry the values the spread gave them. */
  lemma {:induction false} OverwriteBySpread(t: seq<Property>, s: seq<Property>)
    requires Unique(t) && Unique(s)
    ensures Overwrite(t, Spread(t, s)) == Overwrite(t, s)
  {
    forall k | k in Keys(t)
      ensures Get(Spread(t, s), k) == if k in Keys(s) then Get(s, k) else Get(t, k)
    {
      GetSpread(t, s, k);
    }
    OverwriteAgree(t, Spread(t, s), s);
  }

  /** The properties a spread over `t` adds to `t` are those of `s` that `t` lacks. */
  lemma {:induction false} ExtraOfSpread(t: seq<Property>, s: seq<Property>)
    requires Unique(t) && Unique(s)
    ensures Extra(Spread(t, s), Keys(t)) == Extra(s, Keys(t))
  {
    SpreadOrder(t, s);
    ExtraAppend(Overwrite(t, s), Extra(s, Keys(t)), Keys(t));
    ExtraNone(Overwrite(t, s), Keys(t));
    ExtraAll(Extra(s, Keys(t)), Keys(t));
  }

  /** Spreading the result of a spread over the same target again changes nothing. */
  lemma {:induction false} SpreadIdempotent(t: seq<Property>, s: seq<Property>)
    requires Unique(t) && Unique(s)
    ensures Spread(t, Spread(t, s)) == Spread(t, s)
  {
    SpreadOrder(t, s);
    SpreadOrder(t, Spread(t, s));
    OverwriteBySpread(t, s);
    ExtraOfSpread(t, s);
  }

  /** Reading a nested property along a path of keys, as `v.a.b.c` does. */
  function At(v: Value, path: seq<string>): Option<Value>
    decreases |path|
  {
    if path == [] then Some(v)
    else match v
      case Obj(props) =>
        (match Get(props, path[0])
         case Some(child) => At(child, path[1..])
         case None => None)
      case _ => None
  }
}
