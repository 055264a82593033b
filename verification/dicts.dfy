/**
 * An insertion-ordered dictionary keyed by strings: the model of a Python `dict`.
 * Updating an existing key keeps its position; a new key goes to the end, so
 * iterating the values visits them in the order their keys were first inserted.
 */
module Dicts {
  import opened Optional
  import opened Seqs

  datatype Entry<V> = Entry(key: string, value: V)

  /** The keys in iteration order (Python's `d.keys()`). */
  function Keys<V>(d: seq<Entry<V>>): (ks: seq<string>)
    ensures |ks| == |d|
    ensures forall i {:trigger ks[i]} :: 0 <= i < |d| ==> ks[i] == d[i].key
  {
    if d == [] then [] else [d[0].key] + Keys(d[1..])
  }

  /** The values in iteration order (Python's `d.values()`). */
  function Values<V>(d: seq<Entry<V>>): (vs: seq<V>)
    ensures |vs| == |d|
    ensures forall i {:trigger vs[i]} :: 0 <= i < |d| ==> vs[i] == d[i].value
  {
    if d == [] then [] else [d[0].value] + Values(d[1..])
  }

  /** Every key occurs once, as in a real dictionary. */
  predicate WellKeyed<V>(d: seq<Entry<V>>) {
    Distinct(Keys(d))
  }

  /** Python's `d.get(k)`. */
  function Get<V>(d: seq<Entry<V>>, k: string): (r: Option<V>)
    ensures r.None? <==> k !in Keys(d)
    ensures r.Some? ==> exists i :: 0 <= i < |d| && d[i].key == k && d[i].value == r.value
  {
    if d == [] then None
    else if d[0].key == k then Some(d[0].value)
    else Get(d[1..], k)
  }

  /**
   * Python's `d[k] = v`. The key order is unchanged except that a new key is
   * appended; `PutGet`, `PutGetOther` and `PutWellKeyed` state the rest.
   */
  function Put<V>(d: seq<Entry<V>>, k: string, v: V): (r: seq<Entry<V>>)
    ensures Keys(r) == if k in Keys(d) then Keys(d) else Keys(d) + [k]
  {
    if d == [] then [Entry(k, v)]
    else if d[0].key == k then [Entry(k, v)] + d[1..]
    else
      var rest := Put(d[1..], k, v);
      assert Keys(d) == [d[0].key] + Keys(d[1..]);
      assert Keys([d[0]] + rest) == [d[0].key] + Keys(rest);
      [d[0]] + rest
  }

  /** After `d[k] = v`, `k` maps to `v`. */
  lemma {:induction false} PutGet<V>(d: seq<Entry<V>>, k: string, v: V)
    ensures Get(Put(d, k, v), k) == Some(v)
    decreases |d|
  {
    if d != [] && d[0].key != k {
      PutGet(d[1..], k, v);
      assert Put(d, k, v)[1..] == Put(d[1..], k, v);
    }
  }

  /** After `d[k] = v`, every other key keeps its value. */
  lemma {:induction false} PutGetOther<V>(d: seq<Entry<V>>, k: string, v: V, k': string)
    requires k' != k
    ensures Get(Put(d, k, v), k') == Get(d, k')
    decreases |d|
  {
    if d == [] {
    } else if d[0].key == k {
      assert Put(d, k, v)[1..] == d[1..];
    } else if d[0].key != k' {
      PutGetOther(d[1..], k, v, k');
      assert Put(d, k, v)[1..] == Put(d[1..], k, v);
    }
  }

  /** Writing a key twice with the same value is the same as writing it once. */
  lemma {:induction false} PutIdempotent<V>(d: seq<Entry<V>>, k: string, v: V)
    ensures Put(Put(d, k, v), k, v) == Put(d, k, v)
    decreases |d|
  {
    if d != [] && d[0].key != k {
      PutIdempotent(d[1..], k, v);
      assert Put(d, k, v) == [d[0]] + Put(d[1..], k, v);
      assert Put(d, k, v)[1..] == Put(d[1..], k, v);
    }
  }

  /** Assigning a key never creates a duplicate key. */
  lemma PutWellKeyed<V>(d: seq<Entry<V>>, k: string, v: V)
    requires WellKeyed(d)
    ensures WellKeyed(Put(d, k, v))
  {
    var ks := Keys(Put(d, k, v));
    if k !in Keys(d) {
      forall i, j | 0 <= i < j < |ks|
        ensures ks[i] != ks[j]
      {
        if j == |ks| - 1 {
          assert ks[i] == Keys(d)[i];
        }
      }
    }
  }

  /** Every entry after `d[k] = v` was already in `d` or is the new `k: v` entry. */
  lemma {:induction false} PutEntries<V>(d: seq<Entry<V>>, k: string, v: V)
    ensures forall e :: e in Put(d, k, v) ==> e in d || e == Entry(k, v)
    decreases |d|
  {
    if d != [] && d[0].key != k {
      PutEntries(d[1..], k, v);
      assert Put(d, k, v) == [d[0]] + Put(d[1..], k, v);
    }
  }
}
