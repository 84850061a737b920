/**
  A Python `dict` as the parsers and ingestors use it: a sequence of items in insertion
  order whose keys are distinct. Re-assigning a key keeps its position and replaces its
  value; a new key goes to the end. `dict(pairs)` and dict comprehensions are `FromPairs`,
  `d.items()` flattened by a nested comprehension is `Pairs`.
 */
module PyDict {
  import opened Wrappers

  type Dict<K, V> = seq<(K, V)>

  predicate Distinct<T(==)>(s: seq<T>) {
    forall i, j | 0 <= i < j < |s| :: s[i] != s[j]
  }

  /** `d.keys()`, in iteration order. */
  function Keys<K, V>(d: Dict<K, V>): (ks: seq<K>)
    ensures |ks| == |d|
    ensures forall i | 0 <= i < |d| :: ks[i] == d[i].0
  {
    seq(|d|, i requires 0 <= i < |d| => d[i].0)
  }

  lemma DistinctCons<T>(x: T, s: seq<T>)
    ensures Distinct([x] + s) <==> x !in s && Distinct(s)
  {
    var t := [x] + s;
    if x !in s && Distinct(s) {
      forall i, j | 0 <= i < j < |t| ensures t[i] != t[j] {
        if i > 0 { assert t[i] == s[i - 1] && t[j] == s[j - 1]; }
        else { assert t[j] == s[j - 1]; }
      }
    }
    if Distinct(t) {
      forall i, j | 0 <= i < j < |s| ensures s[i] != s[j] {
        assert s[i] == t[i + 1] && s[j] == t[j + 1];
      }
      forall j | 0 <= j < |s| ensures s[j] != x {
        assert t[0] != t[j + 1];
      }
    }
  }

  lemma DistinctSnoc<T>(s: seq<T>, x: T)
    ensures Distinct(s + [x]) <==> x !in s && Distinct(s)
  {
    var t := s + [x];
    if x !in s && Distinct(s) {
      forall i, j | 0 <= i < j < |t| ensures t[i] != t[j] {
        assert t[i] == s[i];
        if j < |s| { assert t[j] == s[j]; }
      }
    }
    if Distinct(t) {
      forall i, j | 0 <= i < j < |s| ensures s[i] != s[j] {
        assert s[i] == t[i] && s[j] == t[j];
      }
      forall j | 0 <= j < |s| ensures s[j] != x {
        assert t[j] != t[|s|];
      }
    }
  }

  /** A sequence is its prefix without the last element, then that element, after any `g`. */
  lemma SnocLast<T>(g: seq<T>, s: seq<T>)
    requires s != []
    ensures (g + s[..|s| - 1]) + [s[|s| - 1]] == g + s
  {
    assert s[..|s| - 1] + [s[|s| - 1]] == s;
  }

  /** Dropping the last element of `a + b`, for a non-empty `b`, drops it from `b`. */
  lemma ConcatButLast<T>(a: seq<T>, b: seq<T>)
    requires b != []
    ensures (a + b)[..|a + b| - 1] == a + b[..|b| - 1]
  {
  }

  /** Dropping the appended element gives the sequence back. */
  lemma SnocPrefix<T>(s: seq<T>, x: T)
    ensures (s + [x])[..|s|] == s
  {
  }

  /** A well-formed dictionary: no key occurs twice. */
  predicate Valid<K(==), V>(d: Dict<K, V>) {
    Distinct(Keys(d))
  }

  /** `d[k]` / `d.get(k)`: `None` where Python raises `KeyError`. */
  function Get<K(==), V>(d: Dict<K, V>, k: K): (r: Option<V>)
    ensures r.Some? <==> k in Keys(d)
  {
    if d == [] then None
    else if d[0].0 == k then Some(d[0].1)
    else
      assert Keys(d) == [d[0].0] + Keys(d[1..]);
      Get(d[1..], k)
  }

  lemma {:induction false} GetAt<K, V>(d: Dict<K, V>, i: nat)
    requires Valid(d) && i < |d|
    ensures Get(d, d[i].0) == Some(d[i].1)
  {
    if i > 0 {
      assert Keys(d[1..]) == Keys(d)[1..];
      assert d[0].0 != d[i].0 by { assert Keys(d)[0] != Keys(d)[i]; }
      GetAt(d[1..], i - 1);
    }
  }

  lemma ConsFacts<K, V>(x: (K, V), d: Dict<K, V>)
    ensures Keys([x] + d) == [x.0] + Keys(d)
    ensures forall k :: Get([x] + d, k) == if x.0 == k then Some(x.1) else Get(d, k)
  {
    ConsKeys(x, d);
    ConsGet(x, d);
  }

  lemma ConsKeys<K, V>(x: (K, V), d: Dict<K, V>)
    ensures Keys([x] + d) == [x.0] + Keys(d)
  {
  }

  lemma ConsGet<K, V>(x: (K, V), d: Dict<K, V>)
    ensures forall k :: Get([x] + d, k) == if x.0 == k then Some(x.1) else Get(d, k)
  {
    assert ([x] + d)[1..] == d;
  }

  /** `d[k] = v`. */
  function Put<K(==), V>(d: Dict<K, V>, k: K, v: V): Dict<K, V>
  {
    if d == [] then [(k, v)]
    else if d[0].0 == k then [(k, v)] + d[1..]
    else [d[0]] + Put(d[1..], k, v)
  }

  /** After `d[k] = v`, `d[k]` is `v` and every other key reads as before. */
  lemma {:induction false} PutGet<K(!new), V>(d: Dict<K, V>, k: K, v: V)
    ensures Get(Put(d, k, v), k) == Some(v)
    ensures forall k' | k' != k :: Get(Put(d, k, v), k') == Get(d, k')
  {
    if d != [] {
      ConsFacts(d[0], d[1..]);
      assert [d[0]] + d[1..] == d;
      if d[0].0 == k {
        ConsFacts((k, v), d[1..]);
      } else {
        PutGet(d[1..], k, v);
        ConsFacts(d[0], Put(d[1..], k, v));
      }
    }
  }

  /** Assigning an existing key keeps the key order; a new key is appended. */
  lemma {:induction false} PutKeys<K, V>(d: Dict<K, V>, k: K, v: V)
    ensures Keys(Put(d, k, v)) == if k in Keys(d) then Keys(d) else Keys(d) + [k]
  {
    if d != [] {
      var x, tail := d[0], d[1..];
      ConsFacts(x, tail);
      assert [x] + tail == d;
      if x.0 == k {
        ConsFacts((k, v), tail);
      } else {
        var rest := Put(tail, k, v);
        PutKeys(tail, k, v);
        ConsFacts(x, rest);
        if k !in Keys(tail) {
          calc {
            Keys([x] + rest);
            [x.0] + (Keys(tail) + [k]);
            ([x.0] + Keys(tail)) + [k];
          }
        }
      }
    }
  }

  lemma PutValid<K, V>(d: Dict<K, V>, k: K, v: V)
    requires Valid(d)
    ensures Valid(Put(d, k, v))
  {
    PutKeys(d, k, v);
    if k !in Keys(d) {
      DistinctSnoc(Keys(d), k);
    }
  }

  /** `d[k].append(v)` on a `defaultdict(list)`: a missing key starts as `[]`. */
  function Append<K(==,!new), V>(d: Dict<K, seq<V>>, k: K, v: V): (r: Dict<K, seq<V>>)
    ensures Get(r, k) == Some(Get(d, k).GetOr([]) + [v])
    ensures forall k' | k' != k :: Get(r, k') == Get(d, k')
    ensures Keys(r) == if k in Keys(d) then Keys(d) else Keys(d) + [k]
    ensures Valid(d) ==> Valid(r)
  {
    var r := Put(d, k, Get(d, k).GetOr([]) + [v]);
    PutGet(d, k, Get(d, k).GetOr([]) + [v]);
    PutKeys(d, k, Get(d, k).GetOr([]) + [v]);
    assert Valid(d) ==> Valid(r) by {
      if Valid(d) { PutValid(d, k, Get(d, k).GetOr([]) + [v]); }
    }
    r
  }

  /** `dict(ps)`: later pairs overwrite earlier ones with the same key. */
  function FromPairs<K(==,!new), V>(ps: seq<(K, V)>): (d: Dict<K, V>)
    ensures Valid(d)
    ensures forall k :: k in Keys(d) <==> k in Keys(ps)
  {
    if ps == [] then []
    else
      var n := |ps| - 1;
      assert Keys(ps) == Keys(ps[..n]) + [ps[n].0];
      var prior := FromPairs(ps[..n]);
      PutKeys(prior, ps[n].0, ps[n].1);
      PutValid(prior, ps[n].0, ps[n].1);
      Put(prior, ps[n].0, ps[n].1)
  }

  /** A key that is absent is appended at the end. */
  lemma {:induction false} PutNew<K, V>(d: Dict<K, V>, k: K, v: V)
    requires k !in Keys(d)
    ensures Put(d, k, v) == d + [(k, v)]
  {
    if d != [] {
      assert Keys(d) == [d[0].0] + Keys(d[1..]);
      PutNew(d[1..], k, v);
      assert [d[0]] + (d[1..] + [(k, v)]) == d + [(k, v)];
    }
  }

  /** `dict(ps)[k]` is the value of the LAST pair whose key is `k`. */
  lemma {:induction false} FromPairsLastWins<K(!new), V>(ps: seq<(K, V)>, i: nat)
    requires i < |ps|
    requires forall j | i < j < |ps| :: ps[j].0 != ps[i].0
    ensures Get(FromPairs(ps), ps[i].0) == Some(ps[i].1)
  {
    var n := |ps| - 1;
    var prior := FromPairs(ps[..n]);
    assert FromPairs(ps) == Put(prior, ps[n].0, ps[n].1);
    PutGet(prior, ps[n].0, ps[n].1);
    if i < n {
      var pre := ps[..n];
      assert pre[i] == ps[i];
      assert forall j | i < j < |pre| :: pre[j].0 != pre[i].0 by {
        forall j | i < j < |pre| ensures pre[j].0 != pre[i].0 { assert pre[j] == ps[j]; }
      }
      FromPairsLastWins(pre, i);
    }
  }

  /** Every value of `dict(ps)` comes from a pair with that key. */
  lemma {:induction false} FromPairsValueFrom<K(!new), V>(ps: seq<(K, V)>, k: K)
    requires k in Keys(ps)
    ensures exists i | 0 <= i < |ps| :: ps[i].0 == k && Get(FromPairs(ps), k) == Some(ps[i].1)
  {
    var n := |ps| - 1;
    if ps[n].0 == k {
      FromPairsLastWins(ps, n);
    } else {
      var pre := ps[..n];
      assert Keys(ps) == Keys(pre) + [ps[n].0];
      PutGet(FromPairs(pre), ps[n].0, ps[n].1);
      FromPairsValueFrom(pre, k);
      var i :| 0 <= i < |pre| && pre[i].0 == k && Get(FromPairs(pre), k) == Some(pre[i].1);
      assert ps[i] == pre[i];
    }
  }

  /** Keys of `dict(ps)` come in the order of their first occurrence in `ps`. */
  lemma {:induction false} FromPairsKeys<K(!new), V>(ps: seq<(K, V)>)
    ensures Keys(FromPairs(ps)) == Dedup(Keys(ps))
  {
    if ps != [] {
      var n := |ps| - 1;
      assert Keys(ps) == Keys(ps[..n]) + [ps[n].0];
      assert Keys(ps)[..n] == Keys(ps[..n]);
      FromPairsKeys(ps[..n]);
      PutKeys(FromPairs(ps[..n]), ps[n].0, ps[n].1);
    }
  }

  /** With distinct keys, `dict(ps)` keeps every pair, in order. */
  lemma {:induction false} FromPairsDistinct<K(!new), V>(ps: seq<(K, V)>)
    requires Distinct(Keys(ps))
    ensures FromPairs(ps) == ps
  {
    if ps != [] {
      var n := |ps| - 1;
      assert Keys(ps) == Keys(ps[..n]) + [ps[n].0];
      DistinctSnoc(Keys(ps[..n]), ps[n].0);
      FromPairsDistinct(ps[..n]);
      PutNew(ps[..n], ps[n].0, ps[n].1);
      assert ps[..n] + [ps[n]] == ps;
    }
  }

  /** The distinct elements of `s`, in order of first occurrence. */
  function Dedup<T(==,!new)>(s: seq<T>): (r: seq<T>)
    ensures Distinct(r)
    ensures forall x :: x in r <==> x in s
  {
    if s == [] then []
    else
      var n := |s| - 1;
      var prior := Dedup(s[..n]);
      assert s == s[..n] + [s[n]];
      DistinctSnoc(prior, s[n]);
      if s[n] in prior then prior else prior + [s[n]]
  }

  /** `[(k, v) for k, vs in d.items() for v in vs]`. */
  function Pairs<K, V>(d: Dict<K, seq<V>>): seq<(K, V)>
  {
    if d == [] then [] else Tagged(d[0].0, d[0].1) + Pairs(d[1..])
  }

  function Tagged<K, V>(k: K, vs: seq<V>): (ps: seq<(K, V)>)
    ensures |ps| == |vs| && forall i | 0 <= i < |vs| :: ps[i] == (k, vs[i])
  {
    seq(|vs|, i requires 0 <= i < |vs| => (k, vs[i]))
  }

  /** The pairs of two runs of items, one after the other. */
  lemma {:induction false} PairsConcat<K, V>(a: Dict<K, seq<V>>, b: Dict<K, seq<V>>)
    ensures Pairs(a + b) == Pairs(a) + Pairs(b)
  {
    if a == [] {
      assert a + b == b;
    } else {
      assert (a + b)[1..] == a[1..] + b;
      PairsConcat(a[1..], b);
    }
  }

  /** Every pair comes from an item of the dictionary. */
  lemma {:induction false} PairsFrom<K, V>(d: Dict<K, seq<V>>, p: (K, V))
    requires p in Pairs(d)
    ensures p.0 in Keys(d)
  {
    if p !in Tagged(d[0].0, d[0].1) {
      PairsFrom(d[1..], p);
    }
  }

  /** The sum of the lengths of the value lists. */
  function TotalLength<K, V>(d: Dict<K, seq<V>>): nat
  {
    if d == [] then 0 else |d[0].1| + TotalLength(d[1..])
  }

  /** The values paired with `k`, in order. */
  function ValuesFor<K(==), V>(ps: seq<(K, V)>, k: K): seq<V>
  {
    if ps == [] then []
    else (if ps[0].0 == k then [ps[0].1] else []) + ValuesFor(ps[1..], k)
  }

  lemma {:induction false} ValuesForConcat<K, V>(a: seq<(K, V)>, b: seq<(K, V)>, k: K)
    ensures ValuesFor(a + b, k) == ValuesFor(a, k) + ValuesFor(b, k)
  {
    if a != [] {
      assert (a + b)[1..] == a[1..] + b;
      ValuesForConcat(a[1..], b, k);
    } else {
      assert a + b == b;
    }
  }

  lemma {:induction false} ValuesForTagged<K, V>(k': K, vs: seq<V>, k: K)
    ensures ValuesFor(Tagged(k', vs), k) == if k' == k then vs else []
  {
    if vs != [] {
      assert Tagged(k', vs)[1..] == Tagged(k', vs[1..]);
      ValuesForTagged(k', vs[1..], k);
      if k' == k { assert [vs[0]] + vs[1..] == vs; }
    }
  }

  /** One pair per value: as many pairs as the lists hold values together. */
  lemma {:induction false} PairsLength<K, V>(d: Dict<K, seq<V>>)
    ensures |Pairs(d)| == TotalLength(d)
  {
    if d != [] { PairsLength(d[1..]); }
  }

  /** The pairs for key `k` carry exactly `d[k]`, in order and with duplicates. */
  lemma {:induction false} PairsValuesFor<K, V>(d: Dict<K, seq<V>>, k: K)
    requires Valid(d)
    ensures ValuesFor(Pairs(d), k) == Get(d, k).GetOr([])
  {
    if d != [] {
      ConsFacts(d[0], d[1..]);
      assert [d[0]] + d[1..] == d;
      DistinctCons(d[0].0, Keys(d[1..]));
      ValuesForConcat(Tagged(d[0].0, d[0].1), Pairs(d[1..]), k);
      ValuesForTagged(d[0].0, d[0].1, k);
      PairsValuesFor(d[1..], k);
      if d[0].0 == k {
        assert Get(d[1..], k) == None;
      }
    }
  }

  // ---------------------------------------------------------------- sets built from pairs

  /** `{name for name, _ in feats}`. */
  function GroupNames(feats: seq<(string, string)>): set<string> {
    set i | 0 <= i < |feats| :: feats[i].0
  }

  /** `order` is one iteration order of the set `s`: each element once. */
  ghost predicate EnumeratesSet(order: seq<string>, s: set<string>) {
    Distinct(order) && forall g :: g in order <==> g in s
  }
}
