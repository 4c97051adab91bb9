/** A JavaScript object or Map as the program uses it: entries in insertion
    order; assigning to a present key replaces its value where it stands,
    assigning to a new key appends it. `Object.entries`, `Map.keys` and
    `Array.from(map.entries())` all list the entries in this order. */
module Dict {
  import opened Common

  datatype Entry<K, V> = Entry(key: K, value: V)

  type Dict<K, V> = seq<Entry<K, V>>

  function Keys<K, V>(d: Dict<K, V>): seq<K>
  {
    if d == [] then [] else [d[0].key] + Keys(d[1..])
  }

  ghost predicate UniqueKeys<K, V>(d: Dict<K, V>)
  {
    forall i, j :: 0 <= i < j < |d| ==> d[i].key != d[j].key
  }

  /** `obj[k]`, `map.get(k)`: None stands for undefined. */
  function Get<K(==), V>(d: Dict<K, V>, k: K): Option<V>
  {
    if d == [] then None
    else if d[0].key == k then Some(d[0].value)
    else Get(d[1..], k)
  }

  /** `obj[k] || dflt` for values that are never falsy except the default itself. */
  function GetOr<K(==), V>(d: Dict<K, V>, k: K, dflt: V): V
  {
    match Get(d, k)
    case Some(v) => v
    case None => dflt
  }

  /** `obj[k] = v`, `map.set(k, v)`. */
  function Put<K(==), V>(d: Dict<K, V>, k: K, v: V): Dict<K, V>
  {
    if d == [] then [Entry(k, v)]
    else if d[0].key == k then [Entry(k, v)] + d[1..]
    else [d[0]] + Put(d[1..], k, v)
  }

  lemma {:induction false} KeysShape<K, V>(d: Dict<K, V>)
    ensures |Keys(d)| == |d|
    ensures forall i :: 0 <= i < |d| ==> Keys(d)[i] == d[i].key
  {
    if d != [] {
      KeysShape(d[1..]);
    }
  }

  /** Lookup finds exactly the keys that are present. */
  lemma {:induction false} GetPresent<K, V>(d: Dict<K, V>, k: K)
    ensures Get(d, k).Some? <==> k in Keys(d)
  {
    if d != [] {
      GetPresent(d[1..], k);
    }
  }

  /** With unique keys, lookup returns the value stored at the key's position. */
  lemma {:induction false} GetAt<K, V>(d: Dict<K, V>, i: nat)
    requires UniqueKeys(d) && i < |d|
    ensures Get(d, d[i].key) == Some(d[i].value)
  {
    if i > 0 {
      assert d[0].key != d[i].key;
      assert d[1..][i - 1] == d[i];
      GetAt(d[1..], i - 1);
    }
  }

  /** Reading back after an assignment. */
  lemma {:induction false} PutGet<K, V>(d: Dict<K, V>, k: K, v: V, k': K)
    ensures Get(Put(d, k, v), k') == if k' == k then Some(v) else Get(d, k')
  {
    if d != [] && d[0].key != k {
      PutGet(d[1..], k, v, k');
    }
  }

  /** Assignment keeps the order of present keys and appends a new key last. */
  lemma {:induction false} PutKeys<K, V>(d: Dict<K, V>, k: K, v: V)
    ensures Keys(Put(d, k, v)) == if k in Keys(d) then Keys(d) else Keys(d) + [k]
  {
    if d != [] && d[0].key != k {
      PutKeys(d[1..], k, v);
    }
  }

  lemma {:induction false} PutUnique<K, V>(d: Dict<K, V>, k: K, v: V)
    requires UniqueKeys(d)
    ensures UniqueKeys(Put(d, k, v))
  {
    var r := Put(d, k, v);
    PutKeys(d, k, v);
    KeysShape(d);
    KeysShape(r);
    forall i, j | 0 <= i < j < |r| ensures r[i].key != r[j].key {
      if j < |d| {
        assert Keys(r)[i] == Keys(d)[i] && Keys(r)[j] == Keys(d)[j];
      } else {
        assert k !in Keys(d) && Keys(r)[j] == k;
        assert Keys(r)[i] == Keys(d)[i];
      }
    }
  }

  /** Looking up in a dictionary extended by one entry at the end. */
  lemma {:induction false} GetSnoc<K, V>(d: Dict<K, V>, e: Entry<K, V>, k: K)
    ensures Get(d + [e], k) == if Get(d, k).Some? then Get(d, k) else if e.key == k then Some(e.value) else None
  {
    if d != [] {
      assert (d + [e])[1..] == d[1..] + [e];
      GetSnoc(d[1..], e, k);
    }
  }

  /** `obj[k] = (obj[k] || 0) + x`: accumulation under a key. */
  function Add<K(==)>(d: Dict<K, int>, k: K, x: int): Dict<K, int>
  {
    Put(d, k, GetOr(d, k, 0) + x)
  }

  /** Sum of all values of an integer-valued dictionary. */
  function SumValues<K>(d: Dict<K, int>): int
  {
    if d == [] then 0 else d[0].value + SumValues(d[1..])
  }

  /** Accumulating x under any key raises the total by exactly x. */
  lemma {:induction false} AddSum<K>(d: Dict<K, int>, k: K, x: int)
    ensures SumValues(Add(d, k, x)) == SumValues(d) + x
  {
    if d != [] && d[0].key != k {
      AddSum(d[1..], k, x);
    }
  }

  // ---- Filling an object in a forEach loop ----------------------------

  /** `xs.forEach(x => { obj[keyOf(x)] = f(x) })` starting from `{}`. */
  function Tabulate<T, K(==), V>(xs: seq<T>, keyOf: T -> K, f: T -> V): Dict<K, V>
  {
    if xs == [] then []
    else Put(Tabulate(xs[..|xs| - 1], keyOf, f), keyOf(xs[|xs| - 1]), f(xs[|xs| - 1]))
  }

  /** x is the last element of xs with its key. */
  ghost predicate LastWithKey<T, K>(xs: seq<T>, keyOf: T -> K, i: int)
  {
    0 <= i < |xs| && forall j :: i < j < |xs| ==> keyOf(xs[j]) != keyOf(xs[i])
  }

  /** The filled object holds one entry per distinct key, and the value under
      a key is the one computed for the last element carrying that key. */
  lemma {:induction false} TabulateGet<T, K, V>(xs: seq<T>, keyOf: T -> K, f: T -> V, i: int)
    requires LastWithKey(xs, keyOf, i)
    ensures Get(Tabulate(xs, keyOf, f), keyOf(xs[i])) == Some(f(xs[i]))
  {
    var n := |xs| - 1;
    var init := xs[..n];
    PutGet(Tabulate(init, keyOf, f), keyOf(xs[n]), f(xs[n]), keyOf(xs[i]));
    if i < n {
      assert init[i] == xs[i];
      TabulateGet(init, keyOf, f, i);
    }
  }

  /** A key is present exactly when some element carries it. */
  lemma {:induction false} TabulateKeys<T, K, V>(xs: seq<T>, keyOf: T -> K, f: T -> V, k: K)
    ensures k in Keys(Tabulate(xs, keyOf, f)) <==> exists i :: 0 <= i < |xs| && keyOf(xs[i]) == k
  {
    if xs != [] {
      var n := |xs| - 1;
      var init := xs[..n];
      TabulateKeys(init, keyOf, f, k);
      PutKeys(Tabulate(init, keyOf, f), keyOf(xs[n]), f(xs[n]));
      if exists i :: 0 <= i < |xs| && keyOf(xs[i]) == k {
        var i :| 0 <= i < |xs| && keyOf(xs[i]) == k;
        if i < n {
          assert init[i] == xs[i];
        }
      }
      if exists i :: 0 <= i < |init| && keyOf(init[i]) == k {
        var i :| 0 <= i < |init| && keyOf(init[i]) == k;
        assert xs[i] == init[i];
      }
    }
  }

  lemma {:induction false} TabulateUnique<T, K, V>(xs: seq<T>, keyOf: T -> K, f: T -> V)
    ensures UniqueKeys(Tabulate(xs, keyOf, f))
  {
    if xs != [] {
      var n := |xs| - 1;
      TabulateUnique(xs[..n], keyOf, f);
      PutUnique(Tabulate(xs[..n], keyOf, f), keyOf(xs[n]), f(xs[n]));
    }
  }

  /** Every value in the filled object was computed for an element carrying its key. */
  lemma {:induction false} TabulateValue<T, K, V>(xs: seq<T>, keyOf: T -> K, f: T -> V, k: K)
    ensures Get(Tabulate(xs, keyOf, f), k).Some? ==>
      exists i :: 0 <= i < |xs| && keyOf(xs[i]) == k && Get(Tabulate(xs, keyOf, f), k).value == f(xs[i])
  {
    if xs != [] {
      var n := |xs| - 1;
      var init := xs[..n];
      TabulateValue(init, keyOf, f, k);
      PutGet(Tabulate(init, keyOf, f), keyOf(xs[n]), f(xs[n]), k);
      if Get(Tabulate(init, keyOf, f), k).Some? && keyOf(xs[n]) != k {
        var i :| 0 <= i < |init| && keyOf(init[i]) == k && Get(Tabulate(init, keyOf, f), k).value == f(init[i]);
        assert xs[i] == init[i];
      }
    }
  }

  /** A key no element carries is absent (reads as undefined). */
  lemma TabulateMissing<T, K, V>(xs: seq<T>, keyOf: T -> K, f: T -> V, k: K)
    requires forall i :: 0 <= i < |xs| ==> keyOf(xs[i]) != k
    ensures Get(Tabulate(xs, keyOf, f), k) == None
  {
    TabulateKeys(xs, keyOf, f, k);
    GetPresent(Tabulate(xs, keyOf, f), k);
  }
}
