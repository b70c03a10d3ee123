/** Small vocabulary shared by the engines: Option/Result, Python lists built
    from sets, and Python's insertion-ordered dictionaries. */
module Collections {

  datatype Option<+T> = None | Some(value: T)

  datatype Result<+T, +E> = Success(value: T) | Failure(error: E)

  /** No element occurs twice in `s`. */
  predicate Distinct<T(==)>(s: seq<T>) {
    forall i, j :: 0 <= i < j < |s| ==> s[i] != s[j]
  }

  function ToSet<T(==)>(s: seq<T>): set<T> {
    set x | x in s
  }

  /** `s` is a duplicate-free listing of exactly the elements of `elements`,
      which is what `list(a_set)` produces in some iteration order. */
  predicate Lists<T(==)>(s: seq<T>, elements: set<T>) {
    Distinct(s) && ToSet(s) == elements
  }

  /** A duplicate-free sequence has as many elements as the set it lists. */
  lemma {:induction false} DistinctCardinality<T>(s: seq<T>)
    requires Distinct(s)
    ensures |ToSet(s)| == |s|
  {
    if s != [] {
      var last := s[|s| - 1];
      var front := s[..|s| - 1];
      assert Distinct(front);
      DistinctCardinality(front);
      assert ToSet(s) == ToSet(front) + {last};
      assert last !in ToSet(front);
    }
  }

  /** `list(elements)`: the elements of a set, each once, in an order the
      set's iteration chooses. */
  method ListFromSet<T(==)>(elements: set<T>) returns (s: seq<T>)
    ensures Lists(s, elements)
    ensures |s| == |elements|
  {
    s := [];
    var rest := elements;
    while rest != {}
      invariant Distinct(s)
      invariant ToSet(s) + rest == elements
      invariant ToSet(s) !! rest
      decreases rest
    {
      var x :| x in rest;
      s := s + [x];
      rest := rest - {x};
    }
    DistinctCardinality(s);
  }

  /** A Python `dict`: a map together with the order in which its keys were
      first inserted (re-assigning an existing key keeps its position). */
  datatype OrderedMap<K(==), V> = OrderedMap(keys: seq<K>, values: map<K, V>) {

    predicate Valid() {
      Distinct(keys) && ToSet(keys) == values.Keys
    }

    /** `d[k] = v` */
    function Put(k: K, v: V): (r: OrderedMap<K, V>)
      ensures Valid() ==> r.Valid()
      ensures r.values == values[k := v]
      ensures r.keys == if k in values then keys else keys + [k]
    {
      if k in values then OrderedMap(keys, values[k := v])
      else OrderedMap(keys + [k], values[k := v])
    }
  }

  function EmptyOrderedMap<K(==), V>(): (r: OrderedMap<K, V>)
    ensures r.Valid() && r.values == map[]
  {
    OrderedMap([], map[])
  }
}
