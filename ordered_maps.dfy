/** Insertion-ordered dictionaries, as Python's `dict` and `OrderedDict`
    behave: assigning to a key that is already present replaces its value
    and keeps its position; a new key goes to the end; deleting a key
    closes the gap. */
module OrderedMaps {

  datatype Option<+T> = None | Some(value: T)

  /** A dictionary is the sequence of its items, in insertion order. */
  type Entries<K, V> = seq<(K, V)>

  function Keys<K, V>(d: Entries<K, V>): seq<K> {
    seq(|d|, i requires 0 <= i < |d| => d[i].0)
  }

  predicate NoDup<K(==)>(s: seq<K>) {
    forall i, j :: 0 <= i < j < |s| ==> s[i] != s[j]
  }

  /** The well-formedness of a dictionary: no key occurs twice. */
  predicate Valid<K(==), V>(d: Entries<K, V>) {
    NoDup(Keys(d))
  }

  /** Concatenation regroups freely; stated once so that callers on long
      strings need not unfold it element by element. */
  lemma AppendAssoc<T>(a: seq<T>, b: seq<T>, c: seq<T>)
    ensures (a + b) + c == a + (b + c)
  {
  }

  lemma KeysSnoc<K, V>(d: Entries<K, V>, k: K, v: V)
    ensures Keys(d + [(k, v)]) == Keys(d) + [k]
  {
  }

  /** The position of key `k` in `d`, if it is there. */
  function Find<K(==, !new), V>(d: Entries<K, V>, k: K): (r: Option<nat>)
    ensures r.None? <==> k !in Keys(d)
    ensures r.Some? ==> r.value < |d| && d[r.value].0 == k
    decreases |d|
  {
    if d == [] then None
    else if d[|d| - 1].0 == k then
      assert Keys(d)[|d| - 1] == k;
      Some(|d| - 1)
    else
      assert Keys(d) == Keys(d[..|d| - 1]) + [d[|d| - 1].0];
      Find(d[..|d| - 1], k)
  }

  /** `d[k]`, or None where Python raises KeyError. */
  function Get<K(==, !new), V>(d: Entries<K, V>, k: K): Option<V> {
    match Find(d, k)
    case None => None
    case Some(i) => Some(d[i].1)
  }

  /** In a well-formed dictionary the item at position `i` is what its key maps to. */
  lemma GetAt<K(!new), V>(d: Entries<K, V>, i: nat)
    requires Valid(d) && i < |d|
    ensures Get(d, d[i].0) == Some(d[i].1)
  {
    assert Keys(d)[i] == d[i].0;
    var j := Find(d, d[i].0).value;
    assert Keys(d)[i] == Keys(d)[j];
  }

  /** A key whose items are the same in `r` as in `d`, and which `r` gains
      from nowhere else, is looked up the same in both. */
  lemma GetSame<K(!new), V>(d: Entries<K, V>, r: Entries<K, V>, k: K)
    requires Valid(d) && Valid(r)
    requires forall j :: 0 <= j < |d| && d[j].0 == k ==> j < |r| && r[j] == d[j]
    requires k in Keys(r) ==> k in Keys(d)
    ensures Get(r, k) == Get(d, k)
  {
    if k in Keys(d) {
      var j := Find(d, k).value;
      GetAt(d, j);
      GetAt(r, j);
    }
  }

  /** `d[k] = v`. */
  function Put<K(==, !new), V>(d: Entries<K, V>, k: K, v: V): (r: Entries<K, V>)
    requires Valid(d)
    ensures Valid(r)
    ensures Keys(r) == if k in Keys(d) then Keys(d) else Keys(d) + [k]
    ensures Get(r, k) == Some(v)
    ensures forall k' :: k' != k ==> Get(r, k') == Get(d, k')
  {
    match Find(d, k)
    case None =>
      var r := d + [(k, v)];
      KeysSnoc(d, k, v);
      assert Valid(r);
      GetAt(r, |d|);
      assert forall k' :: k' != k ==> Get(r, k') == Get(d, k') by {
        forall k' | k' != k ensures Get(r, k') == Get(d, k') { GetSame(d, r, k'); }
      }
      r
    case Some(i) =>
      var r := d[i := (k, v)];
      assert Keys(r) == Keys(d);
      GetAt(r, i);
      assert forall k' :: k' != k ==> Get(r, k') == Get(d, k') by {
        forall k' | k' != k ensures Get(r, k') == Get(d, k') { GetSame(d, r, k'); }
      }
      r
  }

  /** `s` with every occurrence of `k` removed, order kept. */
  function Without<K(==, !new)>(s: seq<K>, k: K): (r: seq<K>)
    ensures forall x :: x in r <==> x in s && x != k
    ensures |r| <= |s|
  {
    if s == [] then []
    else (if s[0] == k then [] else [s[0]]) + Without(s[1..], k)
  }

  lemma {:induction false} WithoutAppend<K(!new)>(a: seq<K>, b: seq<K>, k: K)
    ensures Without(a + b, k) == Without(a, k) + Without(b, k)
  {
    if a == [] {
      assert a + b == b;
    } else {
      assert (a + b)[1..] == a[1..] + b;
      WithoutAppend(a[1..], b, k);
    }
  }

  lemma {:induction false} WithoutAbsent<K(!new)>(s: seq<K>, k: K)
    requires k !in s
    ensures Without(s, k) == s
  {
    if s != [] {
      WithoutAbsent(s[1..], k);
    }
  }

  lemma WithoutNoDup<K(!new)>(s: seq<K>, k: K)
    requires NoDup(s)
    ensures NoDup(Without(s, k))
  {
    if s != [] {
      WithoutNoDup(s[1..], k);
      assert s[0] !in s[1..] by {
        forall j | 1 <= j < |s| ensures s[j] != s[0] { }
      }
    }
  }

  /** `del d[k]` (a missing key is left to the caller, as Python raises KeyError). */
  function Delete<K(==, !new), V>(d: Entries<K, V>, k: K): (r: Entries<K, V>)
    requires Valid(d)
    ensures Valid(r)
    ensures Keys(r) == Without(Keys(d), k)
    ensures Get(r, k) == None
    ensures forall k' :: k' != k ==> Get(r, k') == Get(d, k')
  {
    match Find(d, k)
    case None =>
      WithoutAbsent(Keys(d), k);
      d
    case Some(i) =>
      var r := d[..i] + d[i + 1..];
      assert Keys(r) == Keys(d)[..i] + Keys(d)[i + 1..];
      WithoutAt(Keys(d), i);
      DeleteGet(d, i);
      r
  }

  /** Removing the element at `i` of a duplicate-free sequence removes every
      occurrence of it. */
  lemma {:induction false} WithoutAt<K(!new)>(s: seq<K>, i: nat)
    requires NoDup(s) && i < |s|
    ensures Without(s, s[i]) == s[..i] + s[i + 1..]
  {
    if i == 0 {
      assert s[0] !in s[1..] by {
        forall j | 1 <= j < |s| ensures s[j] != s[0] { }
      }
      WithoutAbsent(s[1..], s[0]);
    } else {
      assert s[0] != s[i];
      var t := s[1..];
      assert NoDup(t) by {
        forall a, b | 0 <= a < b < |t| ensures t[a] != t[b] { assert s[a + 1] != s[b + 1]; }
      }
      WithoutAt(t, i - 1);
      assert t[i - 1] == s[i];
      assert s[..i] + s[i + 1..] == [s[0]] + (t[..i - 1] + t[i..]);
    }
  }

  lemma DeleteGet<K(!new), V>(d: Entries<K, V>, i: nat)
    requires Valid(d) && i < |d|
    ensures Valid(d[..i] + d[i + 1..])
    ensures Get(d[..i] + d[i + 1..], d[i].0) == None
    ensures forall k' :: k' != d[i].0 ==> Get(d[..i] + d[i + 1..], k') == Get(d, k')
  {
    var r := d[..i] + d[i + 1..];
    var ks := Keys(d);
    assert Keys(r) == ks[..i] + ks[i + 1..];
    assert d[i].0 !in Keys(r) by {
      forall j | 0 <= j < |r| ensures r[j].0 != d[i].0 {
        if j < i { assert r[j] == d[j]; assert ks[j] != ks[i]; }
        else { assert r[j] == d[j + 1]; assert ks[j + 1] != ks[i]; }
      }
    }
    forall k' | k' != d[i].0 ensures Get(r, k') == Get(d, k') {
      if k' in Keys(d) {
        var j := Find(d, k').value;
        GetAt(d, j);
        if j < i {
          assert r[j] == d[j];
          GetAt(r, j);
        } else {
          assert j > i;
          assert r[j - 1] == d[j];
          GetAt(r, j - 1);
        }
      }
    }
  }

  /** The distinct elements of `s`, each where it first occurs. */
  function Dedup<K(==, !new)>(s: seq<K>): seq<K>
    decreases |s|
  {
    if s == [] then []
    else
      var p := Dedup(s[..|s| - 1]);
      if s[|s| - 1] in p then p else p + [s[|s| - 1]]
  }

  /** The index of the first occurrence of `x` in `s`. */
  function FirstIndex<K(==, !new)>(s: seq<K>, x: K): (r: nat)
    requires x in s
    ensures r < |s| && s[r] == x
    ensures forall j :: 0 <= j < r ==> s[j] != x
  {
    if s[0] == x then 0 else 1 + FirstIndex(s[1..], x)
  }

  lemma {:induction false} FirstIndexSnoc<K(!new)>(s: seq<K>, y: K, x: K)
    requires x in s
    ensures FirstIndex(s + [y], x) == FirstIndex(s, x)
  {
    var t := s + [y];
    var i := FirstIndex(s, x);
    assert t[i] == x;
    var j := FirstIndex(t, x);
    assert j <= i;
    assert s[j] == x;
  }

  /** Dedup keeps exactly the elements of `s`, once each, in the order of their
      first occurrence. */
  lemma DedupSpec<K(!new)>(s: seq<K>)
    ensures NoDup(Dedup(s))
    ensures forall x :: x in Dedup(s) <==> x in s
    ensures forall a, b :: 0 <= a < b < |Dedup(s)| ==>
              FirstIndex(s, Dedup(s)[a]) < FirstIndex(s, Dedup(s)[b])
  {
    DedupMembers(s);
    DedupOrder(s);
  }

  lemma {:induction false} DedupMembers<K(!new)>(s: seq<K>)
    ensures NoDup(Dedup(s))
    ensures forall x :: x in Dedup(s) <==> x in s
    decreases |s|
  {
    if s != [] {
      var init, y := s[..|s| - 1], s[|s| - 1];
      assert s == init + [y];
      DedupMembers(init);
    }
  }

  lemma {:induction false} DedupOrder<K(!new)>(s: seq<K>)
    ensures forall x :: x in Dedup(s) ==> x in s
    ensures forall a, b :: 0 <= a < b < |Dedup(s)| ==>
              FirstIndex(s, Dedup(s)[a]) < FirstIndex(s, Dedup(s)[b])
    decreases |s|
  {
    DedupMembers(s);
    if s != [] {
      var init, y := s[..|s| - 1], s[|s| - 1];
      assert s == init + [y];
      DedupOrder(init);
      DedupMembers(init);
      var p := Dedup(init);
      forall x | x in p ensures FirstIndex(s, x) == FirstIndex(init, x) {
        FirstIndexSnoc(init, y, x);
      }
      if y !in p {
        FirstIndexLast(init, y);
        var d := p + [y];
        forall a, b | 0 <= a < b < |d|
          ensures FirstIndex(s, d[a]) < FirstIndex(s, d[b])
        {
          if b < |p| {
            assert d[a] == p[a] && d[b] == p[b];
          } else {
            assert d[a] == p[a];
          }
        }
      }
    }
  }

  /** An element new to `init` is first found at its end. */
  lemma FirstIndexLast<K(!new)>(init: seq<K>, y: K)
    requires y !in init
    ensures FirstIndex(init + [y], y) == |init|
  {
    var s := init + [y];
    forall j | 0 <= j < |init| ensures s[j] != y { assert s[j] == init[j]; }
  }

  /** The dictionary built by assigning the pairs of `ps` in order. */
  function FromPairs<K(==, !new), V>(ps: seq<(K, V)>): (r: Entries<K, V>)
    ensures Valid(r)
    ensures ps != [] ==> r != []
    decreases |ps|
  {
    if ps == [] then []
    else Put(FromPairs(ps[..|ps| - 1]), ps[|ps| - 1].0, ps[|ps| - 1].1)
  }

  /** The value of the last pair of `ps` whose key is `k`. */
  function LastValue<K(==, !new), V>(ps: seq<(K, V)>, k: K): (r: Option<V>)
    ensures r.None? <==> k !in Keys(ps)
    ensures r.Some? ==> exists i :: 0 <= i < |ps| && ps[i] == (k, r.value) &&
                          forall j :: i < j < |ps| ==> ps[j].0 != k
    decreases |ps|
  {
    if ps == [] then None
    else if ps[|ps| - 1].0 == k then
      assert Keys(ps)[|ps| - 1] == k;
      assert ps[|ps| - 1] == (k, ps[|ps| - 1].1);
      Some(ps[|ps| - 1].1)
    else
      var init := ps[..|ps| - 1];
      assert Keys(ps) == Keys(init) + [ps[|ps| - 1].0];
      var r := LastValue(init, k);
      assert r.Some? ==> exists i :: 0 <= i < |ps| && ps[i] == (k, r.value) &&
                          forall j :: i < j < |ps| ==> ps[j].0 != k by {
        if r.Some? {
          var i :| 0 <= i < |init| && init[i] == (k, r.value) &&
                   forall j :: i < j < |init| ==> init[j].0 != k;
          assert ps[i] == init[i];
          assert forall j :: i < j < |ps| ==> ps[j].0 != k by {
            forall j | i < j < |ps| ensures ps[j].0 != k {
              if j < |init| { assert ps[j] == init[j]; }
            }
          }
        }
      }
      r
  }

  /** Building a dictionary from pairs keeps each key where it first occurs
      and gives it the value of its last occurrence. */
  lemma {:induction false} FromPairsSpec<K(!new), V>(ps: seq<(K, V)>)
    ensures Keys(FromPairs(ps)) == Dedup(Keys(ps))
    ensures forall k :: Get(FromPairs(ps), k) == LastValue(ps, k)
    decreases |ps|
  {
    if ps != [] {
      var init, last := ps[..|ps| - 1], ps[|ps| - 1];
      FromPairsSpec(init);
      assert Keys(ps)[..|ps| - 1] == Keys(init);
    }
  }
}
