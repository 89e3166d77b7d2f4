/** `json_contains`: when the output of a runner contains the expected fragment. */
module Json {

  /** A JSON number as it is compared: integers by value, floats as finite reals, the two kinds apart. */
  datatype Number = Integer(whole: int) | Float(value: real)

  datatype Value =
    | Null
    | Bool(truth: bool)
    | Num(number: Number)
    | Str(text: string)
    | Array(items: seq<Value>)
    | Object(fields: map<string, Value>)

  predicate Contains(actual: Value, expected: Value)
    decreases expected
  {
    match (actual, expected)
    case (Object(a), Object(e)) => forall k | k in e :: k in a && Contains(a[k], e[k])
    case (Array(a), Array(e)) => forall item | item in e :: exists got | got in a :: Contains(got, item)
    case _ => actual == expected
  }

  // ----- a preorder -----

  lemma {:induction false} Reflexive(v: Value)
    ensures Contains(v, v)
    decreases v
  {
    match v
    case Object(fields) =>
      forall k | k in fields ensures Contains(fields[k], fields[k]) { Reflexive(fields[k]); }
    case Array(items) =>
      forall item | item in items ensures Contains(item, item) { Reflexive(item); }
    case _ =>
  }

  lemma {:induction false} Transitive(u: Value, v: Value, w: Value)
    requires Contains(u, v) && Contains(v, w)
    ensures Contains(u, w)
    decreases w
  {
    match w
    case Object(fields) =>
      forall k | k in fields ensures k in u.fields && Contains(u.fields[k], fields[k]) {
        Transitive(u.fields[k], v.fields[k], fields[k]);
      }
    case Array(items) =>
      forall item | item in items ensures exists got | got in u.items :: Contains(got, item) {
        var mid :| mid in v.items && Contains(mid, item);
        var got :| got in u.items && Contains(got, mid);
        Transitive(got, mid, item);
      }
    case _ =>
  }

  /** Not an order: two arrays can contain one another and differ in more than order and multiplicity. */
  lemma NotAntisymmetric(small: Value, big: Value)
    requires small != big && Contains(big, small)
    ensures Contains(Array([big]), Array([big, small])) && Contains(Array([big, small]), Array([big]))
  {
    Reflexive(big);
    ArrayContains([big], [big, small]);
    ArrayContains([big, small], [big]);
  }

  lemma ArrayContains(items: seq<Value>, expected: seq<Value>)
    requires items != [] && forall item | item in expected :: Contains(items[0], item)
    ensures Contains(Array(items), Array(expected))
  {
    forall item | item in expected ensures exists got | got in items :: Contains(got, item) {
      assert items[0] in items;
    }
  }

  // ----- growing -----

  /** `places` says where each item of the smaller array is in the bigger one, in order. */
  ghost predicate Embeds(small: seq<Value>, big: seq<Value>, places: seq<nat>)
    decreases small, 0
  {
    && |places| == |small|
    && (forall i, j | 0 <= i < j < |small| :: places[i] < places[j])
    && (forall i | 0 <= i < |small| :: places[i] < |big| && Grown(small[i], big[places[i]]))
  }

  /** `big` is `small` with keys added to objects and items inserted into arrays, at any depth. */
  ghost predicate Grown(small: Value, big: Value)
    decreases small, 1
  {
    match (small, big)
    case (Object(s), Object(b)) => forall k | k in s :: k in b && Grown(s[k], b[k])
    case (Array(s), Array(b)) => exists places: seq<nat> :: Embeds(s, b, places)
    case _ => small == big
  }

  lemma {:induction false} GrownContains(small: Value, big: Value)
    requires Grown(small, big)
    ensures Contains(big, small)
    decreases small
  {
    match small
    case Object(fields) =>
      forall k | k in fields ensures k in big.fields && Contains(big.fields[k], fields[k]) {
        GrownContains(fields[k], big.fields[k]);
      }
    case Array(items) =>
      var places: seq<nat> :| Embeds(items, big.items, places);
      forall item | item in items ensures exists got | got in big.items :: Contains(got, item) {
        var i :| 0 <= i < |items| && items[i] == item;
        GrownContains(items[i], big.items[places[i]]);
      }
    case _ =>
  }

  /** Adding to the actual value and dropping from the expected one, at any depth, keeps containment. */
  lemma Monotone(actual: Value, expected: Value, more: Value, less: Value)
    requires Contains(actual, expected) && Grown(actual, more) && Grown(less, expected)
    ensures Contains(more, less)
  {
    GrownContains(actual, more);
    GrownContains(less, expected);
    Transitive(more, actual, expected);
    Transitive(more, expected, less);
  }

  /** Each item of `a` has its like in `b`, at the place that `twin` names. */
  ghost predicate EachIn(a: seq<Value>, b: seq<Value>, twin: seq<nat>)
    decreases a, 0
  {
    && |twin| == |a|
    && (forall i {:trigger twin[i]} | 0 <= i < |a| :: twin[i] < |b| && SameAsSets(a[i], b[twin[i]]))
  }

  /** `v` and `w` are the same but for the order and multiplicity of array items, at any depth. */
  ghost predicate SameAsSets(v: Value, w: Value)
    decreases v, 1
  {
    match (v, w)
    case (Object(a), Object(b)) => a.Keys == b.Keys && forall k | k in a :: SameAsSets(a[k], b[k])
    case (Array(a), Array(b)) =>
      && (exists twin: seq<nat> :: EachIn(a, b, twin))
      && (exists twin: seq<nat> :: |twin| == |b| && forall j {:trigger twin[j]} | 0 <= j < |b| ::
            twin[j] < |a| && SameAsSets(a[twin[j]], b[j]))
    case _ => v == w
  }

  lemma {:induction false} SameObjectsContain(v: Value, w: Value)
    requires v.Object? && SameAsSets(v, w)
    ensures Contains(v, w) && Contains(w, v)
    decreases v, 0
  {
    forall k | k in v.fields
      ensures Contains(v.fields[k], w.fields[k]) && Contains(w.fields[k], v.fields[k])
    {
      SameAsSetsContain(v.fields[k], w.fields[k]);
    }
  }

  lemma {:induction false} SameArraysContain(v: Value, w: Value)
    requires v.Array? && SameAsSets(v, w)
    ensures Contains(v, w) && Contains(w, v)
    decreases v, 0
  {
    forall y | y in w.items ensures exists x | x in v.items :: Contains(x, y) {
      var twin: seq<nat> :| |twin| == |w.items| && forall j {:trigger twin[j]} | 0 <= j < |w.items| ::
        twin[j] < |v.items| && SameAsSets(v.items[twin[j]], w.items[j]);
      var j :| 0 <= j < |w.items| && w.items[j] == y;
      var x := v.items[twin[j]];
      SameAsSetsContain(x, y);
    }
    forall x | x in v.items ensures exists y | y in w.items :: Contains(y, x) {
      var twin: seq<nat> :| EachIn(v.items, w.items, twin);
      var i :| 0 <= i < |v.items| && v.items[i] == x;
      var y := w.items[twin[i]];
      SameAsSetsContain(x, y);
    }
  }

  lemma {:induction false} SameAsSetsContain(v: Value, w: Value)
    requires SameAsSets(v, w)
    ensures Contains(v, w) && Contains(w, v)
    decreases v, 1
  {
    match v
    case Object(_) => SameObjectsContain(v, w);
    case Array(_) => SameArraysContain(v, w);
    case _ =>
  }

  /** Reordering and repeating array items, on either side and at any depth, does not change the answer. */
  lemma IgnoresOrderAndMultiplicity(actual: Value, expected: Value, actual': Value, expected': Value)
    requires SameAsSets(actual, actual') && SameAsSets(expected, expected')
    ensures Contains(actual, expected) <==> Contains(actual', expected')
  {
    SameAsSetsContain(actual, actual');
    SameAsSetsContain(expected, expected');
    if Contains(actual, expected) {
      Transitive(actual', actual, expected);
      Transitive(actual', expected, expected');
    }
    if Contains(actual', expected') {
      Transitive(actual, actual', expected');
      Transitive(actual, expected', expected);
    }
  }

  // ----- what containment means -----

  /** What can be observed of a value without seeing the absence of anything. */
  datatype Observation =
    | IsArray
    | IsObject
    | Is(scalar: Value)
    | At(key: string, there: Observation)
    | SomeItem(item: Observation)
    | All(each: seq<Observation>)

  predicate Scalar(v: Value) {
    !v.Array? && !v.Object?
  }

  predicate Shows(v: Value, o: Observation)
    decreases o
  {
    match o
    case IsArray => v.Array?
    case IsObject => v.Object?
    case Is(scalar) => Scalar(v) && v == scalar
    case At(key, there) => v.Object? && key in v.fields && Shows(v.fields[key], there)
    case SomeItem(item) => v.Array? && exists x | x in v.items :: Shows(x, item)
    case All(each) => forall p | p in each :: Shows(v, p)
  }

  lemma {:induction false} ContainsShows(actual: Value, expected: Value, o: Observation)
    requires Contains(actual, expected) && Shows(expected, o)
    ensures Shows(actual, o)
    decreases o
  {
    match o
    case At(key, there) => ContainsShows(actual.fields[key], expected.fields[key], there);
    case SomeItem(item) =>
      var x :| x in expected.items && Shows(x, item);
      var got :| got in actual.items && Contains(got, x);
      ContainsShows(got, x, item);
    case All(each) =>
      forall p | p in each ensures Shows(actual, p) { ContainsShows(actual, expected, p); }
    case _ =>
  }

  /** Observations that `expected` shows, one that each of these values does not show. */
  lemma {:induction false} DistinguishEach(values: seq<Value>, expected: Value) returns (each: seq<Observation>)
    requires forall v | v in values :: !Contains(v, expected)
    ensures Shows(expected, All(each))
    ensures forall v | v in values :: !Shows(v, All(each))
    decreases expected, 1, values
  {
    if values == [] {
      each := [];
    } else {
      var first := Distinguish(values[0], expected);
      var rest := DistinguishEach(values[1..], expected);
      each := [first] + rest;
      forall v | v in values ensures !Shows(v, All(each)) {
        if v == values[0] {
          assert first in each;
        } else {
          assert v in values[1..];
          var p :| p in rest && !Shows(v, p);
          assert p in each;
        }
      }
    }
  }

  /** Where containment fails, something that `expected` shows is missing from `actual`. */
  lemma {:induction false} Distinguish(actual: Value, expected: Value) returns (o: Observation)
    requires !Contains(actual, expected)
    ensures Shows(expected, o) && !Shows(actual, o)
    decreases expected, 0
  {
    match expected
    case Object(fields) =>
      if actual.Object? {
        var k :| k in fields && !(k in actual.fields && Contains(actual.fields[k], fields[k]));
        if k in actual.fields {
          var inner := Distinguish(actual.fields[k], fields[k]);
          o := At(k, inner);
        } else {
          o := At(k, All([]));
        }
      } else {
        o := IsObject;
      }
    case Array(items) =>
      if actual.Array? {
        var item :| item in items && forall got | got in actual.items :: !Contains(got, item);
        var each := DistinguishEach(actual.items, item);
        o := SomeItem(All(each));
      } else {
        o := IsArray;
      }
    case _ => o := Is(expected);
  }

  /**
   `actual` contains `expected` exactly when it shows everything that `expected` shows: the shapes, the
   scalars, the values under keys, and items of arrays wherever they stand.
   */
  lemma ContainsMeansShowsMore(actual: Value, expected: Value)
    ensures Contains(actual, expected) <==> forall o :: Shows(expected, o) ==> Shows(actual, o)
  {
    if Contains(actual, expected) {
      forall o | Shows(expected, o) ensures Shows(actual, o) { ContainsShows(actual, expected, o); }
    } else {
      var o := Distinguish(actual, expected);
    }
  }
}
