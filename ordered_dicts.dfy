/**
 * Python's insertion-ordered `dict` with string keys: a sequence of bindings.
 * Assigning an existing key replaces its value in place; assigning a new key
 * appends it, so iteration order is the order of first insertion.
 */
module OrderedDicts {

  datatype Binding<V> = Binding(key: string, value: V)

  type ODict<V> = seq<Binding<V>>

  /** `list(d.keys())` */
  function Keys<V>(d: ODict<V>): (r: seq<string>)
    ensures |r| == |d|
    ensures forall i :: 0 <= i < |d| ==> r[i] == d[i].key
  {
    if d == [] then [] else [d[0].key] + Keys(d[1..])
  }

  lemma KeysAppend<V>(a: ODict<V>, b: ODict<V>)
    ensures Keys(a + b) == Keys(a) + Keys(b)
  {
    var r := Keys(a + b);
    assert forall i :: 0 <= i < |a| ==> r[i] == a[i].key;
  }

  lemma KeysOfInit<V>(d: ODict<V>)
    requires d != []
    ensures Keys(d) == Keys(d[..|d| - 1]) + [d[|d| - 1].key]
  {
    var init, last := d[..|d| - 1], d[|d| - 1];
    assert d == init + [last];
    KeysAppend(init, [last]);
    assert Keys([last]) == [last.key];
  }

  /** No key occurs twice, as in every dict. */
  predicate DistinctKeys<V>(d: ODict<V>) {
    forall i, j :: 0 <= i < j < |d| ==> d[i].key != d[j].key
  }

  /** The position of the first binding of `k`. */
  function IndexOf<V>(d: ODict<V>, k: string): (i: nat)
    requires k in Keys(d)
    ensures i < |d| && d[i].key == k
    ensures forall j :: 0 <= j < i ==> d[j].key != k
  {
    if d[0].key == k then 0 else 1 + IndexOf(d[1..], k)
  }

  /** `d[k]` for a key that is present. */
  function Get<V>(d: ODict<V>, k: string): V
    requires k in Keys(d)
  {
    d[IndexOf(d, k)].value
  }

  /** `d.get(k, default)` */
  function GetOr<V>(d: ODict<V>, k: string, default: V): V {
    if k in Keys(d) then Get(d, k) else default
  }

  /** `d[k] = v` */
  function Put<V>(d: ODict<V>, k: string, v: V): ODict<V> {
    if d == [] then [Binding(k, v)]
    else if d[0].key == k then [Binding(k, v)] + d[1..]
    else [d[0]] + Put(d[1..], k, v)
  }

  /** Helper: a map holds something after an assignment. */
  lemma PutNotEmpty<V>(d: ODict<V>, k: string, v: V)
    ensures Put(d, k, v) != []
  {
  }

  /** `Get` finds a binding whose key no earlier binding carries. */
  lemma GetFirst<V>(d: ODict<V>, i: nat)
    requires i < |d| && forall j :: 0 <= j < i ==> d[j].key != d[i].key
    ensures d[i].key in Keys(d) && Get(d, d[i].key) == d[i].value
  {
    assert Keys(d)[i] == d[i].key;
    var k := IndexOf(d, d[i].key);
    assert !(k < i) && !(i < k);
  }

  /** With distinct keys, the value at a key's position is the one `Get` returns. */
  lemma GetAt<V>(d: ODict<V>, i: nat)
    requires DistinctKeys(d) && i < |d|
    ensures d[i].key in Keys(d) && Get(d, d[i].key) == d[i].value
  {
    assert Keys(d)[i] == d[i].key;
  }

  /**
   * `d[k] = v` keeps the key order when `k` is present and appends `k` otherwise;
   * the value at `k` becomes `v` and every other position keeps its binding.
   */
  lemma {:induction false} PutShape<V>(d: ODict<V>, k: string, v: V)
    requires DistinctKeys(d)
    ensures Keys(Put(d, k, v)) == if k in Keys(d) then Keys(d) else Keys(d) + [k]
    ensures forall i :: 0 <= i < |Put(d, k, v)| ==>
              Put(d, k, v)[i] == if Put(d, k, v)[i].key == k then Binding(k, v) else d[i]
  {
    if d != [] && d[0].key != k {
      PutShape(d[1..], k, v);
      assert Keys(d) == [d[0].key] + Keys(d[1..]);
    }
  }

  lemma PutDistinct<V>(d: ODict<V>, k: string, v: V)
    requires DistinctKeys(d)
    ensures DistinctKeys(Put(d, k, v))
  {
    var r := Put(d, k, v);
    PutShape(d, k, v);
    forall i, j | 0 <= i < j < |r|
      ensures r[i].key != r[j].key
    {
      assert Keys(r)[i] == r[i].key && Keys(r)[j] == r[j].key;
    }
  }

  /** After `d[k] = v`, `d[k]` is `v` and every other key keeps its value. */
  lemma PutGet<V>(d: ODict<V>, k: string, v: V, other: string)
    requires DistinctKeys(d)
    ensures k in Keys(Put(d, k, v)) && Get(Put(d, k, v), k) == v
    ensures other != k ==> (other in Keys(Put(d, k, v)) <==> other in Keys(d))
    ensures other != k && other in Keys(d) ==> Get(Put(d, k, v), other) == Get(d, other)
  {
    var r := Put(d, k, v);
    PutShape(d, k, v);
    PutDistinct(d, k, v);
    var i := IndexOf(r, k);
    GetAt(r, i);
    if other != k && other in Keys(d) {
      var j := IndexOf(d, other);
      assert Keys(r)[j] == other;
      GetAt(r, j);
    }
  }
}
