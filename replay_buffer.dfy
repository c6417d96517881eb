/** proj/algorithms/ddpg.py: the replay buffer of DDPG, a ring of
    `max_size` slots over five parallel tensors, and its minibatch sampler. */
module ReplayBuffers {
  import opened OrderedMaps

  /** One stored step: observation, action, reward, next observation and
      the done flag (a float in the source). */
  datatype Transition<Ob, Ac> = Transition(ob1: Ob, act: Ac, rew: real, ob2: Ob, done: real)

  function Min(a: int, b: int): int
  {
    if a <= b then a else b
  }

  /** The slots of a buffer of `cap` slots after storing `h` in order:
      slots fill up from 0, then each store overwrites the slot after the
      last one written, wrapping around. */
  function Ring<T>(h: seq<T>, cap: nat): (r: seq<T>)
    requires cap > 0
    ensures |r| == Min(|h|, cap)
    decreases |h|
  {
    if h == [] then []
    else
      var r0 := Ring(h[..|h| - 1], cap);
      if |r0| < cap then r0 + [h[|h| - 1]] else r0[(|h| - 1) % cap := h[|h| - 1]]
  }

  /** Index `j` of the history is among the `cap` latest. */
  predicate InWindow(j: int, n: nat, cap: nat)
  {
    n - cap <= j < n && 0 <= j
  }

  lemma MulGe(x: int, m: int)
    requires x >= 1 && m > 0
    ensures x * m >= m
  {}

  /** A quotient and a remainder in range determine the remainder. */
  lemma ModUnique(a: int, m: int, q: int, r: int)
    requires m > 0 && 0 <= r < m && a == q * m + r
    ensures a % m == r
  {
    var q', r' := a / m, a % m;
    assert a == q' * m + r';
    assert (q - q') * m == r' - r by {
      assert q * m - q' * m == (q - q') * m;
    }
    if q - q' >= 1 {
      MulGe(q - q', m);
    } else if q - q' <= -1 {
      MulGe(q' - q, m);
    }
  }

  lemma ModStep(j: int, cap: nat)
    requires cap > 0 && j >= 0
    ensures (j + cap) % cap == j % cap
  {
    var q, s := j / cap, j % cap;
    assert j + cap == (q + 1) * cap + s;
    ModUnique(j + cap, cap, q + 1, s);
  }

  /** Two indices less than `cap` apart land in different slots. */
  lemma ModDistinct(j: int, k: int, cap: nat)
    requires cap > 0 && 0 <= j < k < j + cap
    ensures j % cap != k % cap
  {
    var q, s, d := j / cap, j % cap, k - j;
    if s + d < cap {
      assert k == q * cap + (s + d);
      ModUnique(k, cap, q, s + d);
    } else {
      assert k == (q + 1) * cap + (s + d - cap);
      ModUnique(k, cap, q + 1, s + d - cap);
    }
  }

  /** Advancing a slot index modulo `m` follows the count it came from. */
  lemma ModSucc(a: nat, m: nat)
    requires m > 0
    ensures (a % m + 1) % m == (a + 1) % m
  {
    var q, s := a / m, a % m;
    if s + 1 < m {
      assert a + 1 == q * m + (s + 1);
      ModUnique(a + 1, m, q, s + 1);
      ModUnique(s + 1, m, 0, s + 1);
    } else {
      assert a + 1 == (q + 1) * m + 0;
      ModUnique(a + 1, m, q + 1, 0);
      ModUnique(m, m, 1, 0);
    }
  }

  /** The slot of an index of the window is a filled slot. */
  lemma SlotInRange(j: int, n: nat, cap: nat)
    requires cap > 0 && InWindow(j, n, cap)
    ensures 0 <= j % cap < Min(n, cap)
  {
    if n <= cap {
      ModUnique(j, cap, 0, j);
    }
  }

  lemma RingSnoc<T>(h: seq<T>, t: T, cap: nat)
    requires cap > 0
    ensures Ring(h + [t], cap)
            == if |h| < cap then Ring(h, cap) + [t] else Ring(h, cap)[|h| % cap := t]
  {
    assert (h + [t])[..|h|] == h;
  }

  /** Each of the `cap` latest stored transitions sits in the slot its
      position modulo `cap` names. */
  lemma {:induction false} RingHoldsLatest<T>(h: seq<T>, cap: nat)
    requires cap > 0
    ensures forall j :: InWindow(j, |h|, cap) ==> j % cap < |Ring(h, cap)| && Ring(h, cap)[j % cap] == h[j]
    decreases |h|
  {
    if h != [] {
      var h0, t := h[..|h| - 1], h[|h| - 1];
      assert h == h0 + [t];
      RingHoldsLatest(h0, cap);
      RingSnoc(h0, t, cap);
      var r0, r := Ring(h0, cap), Ring(h, cap);
      var p := |h0| % cap;
      if |h0| < cap {
        ModUnique(|h0|, cap, 0, |h0|);
      }
      assert r[p] == t;
      forall j | InWindow(j, |h|, cap)
        ensures j % cap < |r| && r[j % cap] == h[j]
      {
        SlotInRange(j, |h|, cap);
        if j == |h0| {
          assert h[j] == t;
        } else {
          SlotInRange(j, |h0|, cap);
          ModDistinct(j, |h0|, cap);
          assert InWindow(j, |h0|, cap);
          assert r0[j % cap] == h0[j] == h[j];
          assert r[j % cap] == r0[j % cap];
        }
      }
    }
  }

  /** Slot `i` of the ring over `h` holds one of the `cap` latest
      transitions, the one whose position it names. */
  ghost predicate SlotHoldsRecent<T>(h: seq<T>, cap: nat, i: nat)
    requires cap > 0 && i < |Ring(h, cap)|
  {
    exists j :: InWindow(j, |h|, cap) && j % cap == i && Ring(h, cap)[i] == h[j]
  }

  /** Every filled slot holds one of the `cap` latest transitions. */
  lemma {:induction false} RingSlots<T>(h: seq<T>, cap: nat)
    requires cap > 0
    ensures forall i :: 0 <= i < |Ring(h, cap)| ==> SlotHoldsRecent(h, cap, i)
    decreases |h|
  {
    if h != [] {
      var h0, t := h[..|h| - 1], h[|h| - 1];
      assert h == h0 + [t];
      RingSlots(h0, cap);
      RingSnoc(h0, t, cap);
      var r0, r := Ring(h0, cap), Ring(h, cap);
      var p := |h0| % cap;
      if |h0| < cap {
        ModUnique(|h0|, cap, 0, |h0|);
      }
      assert r[p] == t;
      forall i | 0 <= i < |r|
        ensures SlotHoldsRecent(h, cap, i)
      {
        if i == p {
          assert InWindow(|h0|, |h|, cap) && |h0| % cap == i && r[i] == h[|h0|];
        } else {
          assert i < |r0| && r[i] == r0[i];
          assert SlotHoldsRecent(h0, cap, i);
          var j :| InWindow(j, |h0|, cap) && j % cap == i && r0[i] == h0[j];
          if j == |h0| - cap {
            ModStep(j, cap);
          }
          assert InWindow(j, |h|, cap) && r[i] == h[j];
        }
      }
    }
  }

  /** Once the buffer is full, a store replaces the oldest transition held. */
  lemma {:induction false} OverwritesOldest<T>(h: seq<T>, t: T, cap: nat)
    requires cap > 0 && |h| >= cap
    ensures Ring(h, cap)[|h| % cap] == h[|h| - cap]
    ensures Ring(h + [t], cap)[|h| % cap] == t
    ensures forall i :: 0 <= i < cap && i != |h| % cap ==> Ring(h + [t], cap)[i] == Ring(h, cap)[i]
  {
    RingHoldsLatest(h, cap);
    ModStep(|h| - cap, cap);
    assert InWindow(|h| - cap, |h|, cap);
    RingSnoc(h, t, cap);
  }

  class ReplayBuffer<Ob(0), Ac(0)> {
    const allObs1: array<Ob>
    const allActs: array<Ac>
    const allRews: array<real>
    const allObs2: array<Ob>
    const allDones: array<real>
    var ptr: nat
    var size: nat
    const maxSize: nat
    /** Every transition stored so far, oldest first. */
    ghost var history: seq<Transition<Ob, Ac>>

    ghost predicate Valid()
      reads this
    {
      allObs1.Length == maxSize && allActs.Length == maxSize && allRews.Length == maxSize
      && allObs2.Length == maxSize && allDones.Length == maxSize
      && Separate()
      && (maxSize == 0 ==> ptr == 0 && size == 0 && history == [])
      && (maxSize > 0 ==> ptr == |history| % maxSize && size == Min(|history|, maxSize))
    }

    /** The five arrays are five different objects. */
    ghost predicate Separate()
      reads this
    {
      allObs1 != allObs2 && allRews != allDones
      && allObs1 as object != allActs && allObs1 as object != allRews && allObs1 as object != allDones
      && allObs2 as object != allActs && allObs2 as object != allRews && allObs2 as object != allDones
      && allActs as object != allRews && allActs as object != allDones
    }

    /** The slots in use hold the ring of every transition stored so far. */
    ghost predicate Holds()
      requires Valid()
      reads this, allObs1, allActs, allRews, allObs2, allDones
    {
      maxSize > 0 ==> forall i :: 0 <= i < size ==> Row(i) == Ring(history, maxSize)[i]
    }

    /** The transition in slot `i`, read across the five arrays. */
    function Row(i: nat): (t: Transition<Ob, Ac>)
      requires Valid() && i < maxSize
      reads this, allObs1, allActs, allRews, allObs2, allDones
      ensures t.rew == allRews[i] && t.done == allDones[i]
    {
      Transition(allObs1[i], allActs[i], allRews[i], allObs2[i], allDones[i])
    }

    constructor (maxSize: nat)
      ensures Valid() && Holds()
      ensures this.maxSize == maxSize && ptr == 0 && size == 0 && history == []
      ensures fresh(allObs1) && fresh(allActs) && fresh(allRews) && fresh(allObs2) && fresh(allDones)
    {
      allObs1 := new Ob[maxSize];
      allActs := new Ac[maxSize];
      allRews := new real[maxSize];
      allObs2 := new Ob[maxSize];
      allDones := new real[maxSize];
      ptr, size := 0, 0;
      this.maxSize := maxSize;
      history := [];
    }

    /** Writes one transition into slot `p` of the five arrays. */
    method WriteRow(p: nat, t: Transition<Ob, Ac>)
      requires Valid() && p < maxSize
      modifies allObs1, allActs, allRews, allObs2, allDones
      ensures Valid() && Row(p) == t
      ensures forall i :: 0 <= i < maxSize && i != p ==> Row(i) == old(Row(i))
      ensures allObs1[..] == old(allObs1[..])[p := t.ob1] && allActs[..] == old(allActs[..])[p := t.act]
      ensures allRews[..] == old(allRews[..])[p := t.rew] && allObs2[..] == old(allObs2[..])[p := t.ob2]
      ensures allDones[..] == old(allDones[..])[p := t.done]
    {
      allObs1[p] := t.ob1;
      allActs[p] := t.act;
      allRews[p] := t.rew;
      allObs2[p] := t.ob2;
      allDones[p] := t.done;
    }

    /** Moves `ptr` and `size` on after `t` was written to slot `ptr`,
        recording `t` as stored. */
    method Advance(t: Transition<Ob, Ac>)
      requires Valid() && maxSize > 0 && Row(ptr) == t
      requires forall i :: 0 <= i < size && i != ptr ==> Row(i) == Ring(history, maxSize)[i]
      modifies this
      ensures Valid() && Holds()
      ensures ptr == (old(ptr) + 1) % maxSize && size == Min(old(size) + 1, maxSize)
      ensures history == old(history) + [t]
    {
      ghost var h0 := history;
      var p := ptr;
      ModSucc(|h0|, maxSize);
      RingSnoc(h0, t, maxSize);
      if |h0| < maxSize {
        ModUnique(|h0|, maxSize, 0, |h0|);
      }
      ptr := (ptr + 1) % maxSize;
      size := Min(size + 1, maxSize);
      history := history + [t];
      ghost var r0, r := Ring(h0, maxSize), Ring(history, maxSize);
      assert r[p] == t;
      forall i | 0 <= i < size
        ensures Row(i) == r[i]
      {
        if i != p {
          assert i < old(size) && r[i] == r0[i];
        }
      }
    }

    /** `store`: the transition goes into slot `ptr` of each array, then
        `ptr` moves on modulo `max_size` and `size` grows up to `max_size`.
        A buffer of no slots cannot be indexed, so the store fails and
        nothing changes. */
    method Store(ob1: Ob, act: Ac, rew: real, ob2: Ob, done: real) returns (ok: bool)
      requires Valid() && Holds()
      modifies this, allObs1, allActs, allRews, allObs2, allDones
      ensures Valid() && Holds()
      ensures ok <==> maxSize > 0
      ensures !ok ==> ptr == old(ptr) && size == old(size) && history == old(history)
      ensures ok ==> (allObs1[..] == old(allObs1[..])[old(ptr) := ob1]
                      && allActs[..] == old(allActs[..])[old(ptr) := act]
                      && allRews[..] == old(allRews[..])[old(ptr) := rew]
                      && allObs2[..] == old(allObs2[..])[old(ptr) := ob2]
                      && allDones[..] == old(allDones[..])[old(ptr) := done])
      ensures ok ==> ptr == (old(ptr) + 1) % maxSize && size == Min(old(size) + 1, maxSize)
      ensures ok ==> history == old(history) + [Transition(ob1, act, rew, ob2, done)]
    {
      if maxSize == 0 {
        return false;
      }
      var t := Transition(ob1, act, rew, ob2, done);
      WriteRow(ptr, t);
      Advance(t);
      ok := true;
    }

    /** The buffer holds the `max_size` latest transitions, each in the slot
        its position modulo `max_size` names. */
    lemma HoldsLatest()
      requires Valid() && Holds()
      ensures forall j :: maxSize > 0 && InWindow(j, |history|, maxSize) ==>
                j % maxSize < size && Row(j % maxSize) == history[j]
    {
      if maxSize > 0 {
        RingHoldsLatest(history, maxSize);
        forall j | InWindow(j, |history|, maxSize)
          ensures j % maxSize < size && Row(j % maxSize) == history[j]
        {
          var i := j % maxSize;
          assert i < size && Row(i) == Ring(history, maxSize)[i];
        }
      }
    }

    /** `x` is one of the `size` latest transitions stored. */
    ghost predicate IsRecent(x: Transition<Ob, Ac>)
      reads this
    {
      exists j :: 0 <= j < |history| && |history| - size <= j && x == history[j]
    }

    /** Every slot in use holds one of the `size` latest transitions. */
    lemma RowsAreRecent()
      requires Valid() && Holds()
      ensures forall i :: 0 <= i < size ==> IsRecent(Row(i))
    {
      if maxSize > 0 {
        RingSlots(history, maxSize);
        forall i | 0 <= i < size
          ensures IsRecent(Row(i))
        {
          assert SlotHoldsRecent(history, maxSize, i);
          var j :| InWindow(j, |history|, maxSize) && j % maxSize == i && Ring(history, maxSize)[i] == history[j];
          assert 0 <= j < |history| && |history| - size <= j && Row(i) == history[j];
        }
      }
    }

    /** `sampler(num_mbs, mb_size)`: `num_mbs` minibatches of `mb_size`
        transitions, each drawn with replacement from the first `size`
        slots, hence each one of the `size` latest transitions stored. An
        empty buffer, or a count or batch size that is not positive, makes
        the sampler raise. */
    method Sample(numMbs: int, mbSize: int) returns (r: Option<seq<seq<Transition<Ob, Ac>>>>)
      requires Valid() && Holds()
      ensures r.Some? <==> size > 0 && numMbs > 0 && mbSize > 0
      ensures r.Some? ==> |r.value| == numMbs
      ensures r.Some? ==> forall m :: 0 <= m < |r.value| ==> |r.value[m]| == mbSize
      ensures r.Some? ==> forall m, k :: 0 <= m < |r.value| && 0 <= k < |r.value[m]| ==> IsRecent(r.value[m][k])
    {
      if size == 0 || numMbs <= 0 || mbSize <= 0 {
        return None;
      }
      RowsAreRecent();
      var batches: seq<seq<Transition<Ob, Ac>>> := [];
      var m := 0;
      while m < numMbs
        invariant 0 <= m <= numMbs && |batches| == m
        invariant forall b :: 0 <= b < m ==> |batches[b]| == mbSize
        invariant forall b, k :: 0 <= b < m && 0 <= k < |batches[b]| ==> IsRecent(batches[b][k])
      {
        var batch: seq<Transition<Ob, Ac>> := [];
        var k := 0;
        while k < mbSize
          invariant 0 <= k <= mbSize && |batch| == k
          invariant forall c :: 0 <= c < k ==> IsRecent(batch[c])
        {
          var i :| 0 <= i < size;
          batch := batch + [Row(i)];
          k := k + 1;
        }
        batches := batches + [batch];
        m := m + 1;
      }
      r := Some(batches);
    }
  }
}
