/** Python's insertion-ordered `dict` with string keys: assigning to an existing
    key keeps its position, a new key goes to the end. */
module Dicts {

  datatype DictRep<V> = DictRep(keys: seq<string>, entries: map<string, V>)

  predicate Distinct(s: seq<string>) {
    forall i, j :: 0 <= i < j < |s| ==> s[i] != s[j]
  }

  predicate Valid<V>(d: DictRep<V>) {
    && Distinct(d.keys)
    && (forall k :: k in d.entries ==> k in d.keys)
    && (forall k :: k in d.keys ==> k in d.entries)
  }

  type Dict<V> = d: DictRep<V> | Valid(d) witness DictRep([], map[])

  function Empty<V>(): (r: Dict<V>)
    ensures r.keys == [] && r.entries == map[]
  {
    DictRep([], map[])
  }

  /** `d[k] = v`. */
  function Put<V>(d: Dict<V>, k: string, v: V): (r: Dict<V>)
    ensures r.entries == d.entries[k := v]
    ensures k in d.entries ==> r.keys == d.keys
    ensures k !in d.entries ==> r.keys == d.keys + [k]
  {
    if k in d.entries then DictRep(d.keys, d.entries[k := v])
    else DictRep(d.keys + [k], d.entries[k := v])
  }

  /** Assigning never moves the keys already present. */
  lemma PutKeepsOrder<V>(d: Dict<V>, k: string, v: V)
    ensures |Put(d, k, v).keys| >= |d.keys| && Put(d, k, v).keys[..|d.keys|] == d.keys
  {
  }

  /** A prefix of a prefix is a prefix. */
  lemma PrefixOfPrefix(a: seq<string>, b: seq<string>, c: seq<string>)
    requires |b| >= |a| && b[..|a|] == a
    requires |c| >= |b| && c[..|b|] == b
    ensures |c| >= |a| && c[..|a|] == a
  {
    assert c[..|a|] == c[..|b|][..|a|];
  }

  /** The entries of `e` whose keys sit at position `i` or later. */
  function Tail<V>(e: Dict<V>, i: nat): map<string, V>
    requires i <= |e.keys|
  {
    map k | k in e.keys[i..] :: e.entries[k]
  }

  lemma TailStep<V>(d: Dict<V>, e: Dict<V>, i: nat)
    requires i < |e.keys|
    ensures d.entries[e.keys[i] := e.entries[e.keys[i]]] + Tail(e, i + 1) == d.entries + Tail(e, i)
  {
    assert e.keys[i..] == [e.keys[i]] + e.keys[i + 1..];
  }

  /** `d.update(e)` for the keys of `e` from position `i` on. */
  function UpdateFrom<V>(d: Dict<V>, e: Dict<V>, i: nat): (r: Dict<V>)
    requires i <= |e.keys|
    ensures r.entries == d.entries + Tail(e, i)
    ensures |r.keys| >= |d.keys| && r.keys[..|d.keys|] == d.keys
    decreases |e.keys| - i
  {
    if i == |e.keys| then
      assert Tail(e, i) == map[];
      d
    else
      var k := e.keys[i];
      var r := UpdateFrom(Put(d, k, e.entries[k]), e, i + 1);
      UpdateFromStep(d, e, i, r);
      r
  }

  /** One step of `UpdateFrom`: assigning the key at position `i`, then the rest. */
  lemma UpdateFromStep<V>(d: Dict<V>, e: Dict<V>, i: nat, r: Dict<V>)
    requires i < |e.keys|
    requires var d' := Put(d, e.keys[i], e.entries[e.keys[i]]);
      r.entries == d'.entries + Tail(e, i + 1) && |r.keys| >= |d'.keys| && r.keys[..|d'.keys|] == d'.keys
    ensures r.entries == d.entries + Tail(e, i)
    ensures |r.keys| >= |d.keys| && r.keys[..|d.keys|] == d.keys
  {
    var k := e.keys[i];
    var d' := Put(d, k, e.entries[k]);
    TailStep(d, e, i);
    PutKeepsOrder(d, k, e.entries[k]);
    assert r.keys[..|d.keys|] == r.keys[..|d'.keys|][..|d.keys|];
  }

  /** `d.update(e)`: every key of `e` takes its value from `e`, every other key
      of `d` keeps its value, and the keys `d` already had keep their order at the front. */
  function Update<V>(d: Dict<V>, e: Dict<V>): (r: Dict<V>)
    ensures r.entries == d.entries + e.entries
    ensures |r.keys| >= |d.keys| && r.keys[..|d.keys|] == d.keys
  {
    assert e.keys[0..] == e.keys;
    assert Tail(e, 0) == e.entries;
    UpdateFrom(d, e, 0)
  }

  /** `len(d)`: the number of distinct keys. */
  function Size<V>(d: Dict<V>): (n: nat)
    ensures n == |d.entries.Keys|
  {
    DistinctCard(d.keys);
    assert d.entries.Keys == (set k | k in d.keys);
    |d.keys|
  }

  /** A duplicate-free sequence has as many elements as its set. */
  lemma {:induction false} DistinctCard(s: seq<string>)
    requires Distinct(s)
    ensures |(set k | k in s)| == |s|
  {
    if |s| > 0 {
      var rest := s[1..];
      assert Distinct(rest);
      DistinctCard(rest);
      assert (set k | k in s) == (set k | k in rest) + {s[0]};
      assert s[0] !in rest by {
        forall j | 0 <= j < |rest| ensures rest[j] != s[0] { assert rest[j] == s[j + 1]; }
      }
    }
  }

  /** Position of a present key in iteration order. */
  function IndexOf(s: seq<string>, k: string): (i: nat)
    requires k in s
    ensures i < |s| && s[i] == k
    ensures k !in s[..i]
  {
    if s[0] == k then 0 else 1 + IndexOf(s[1..], k)
  }
}
