/** The controller's slot registry: a JavaScript array of children in which `delete` leaves a
    hole (a tombstone, `None`), so that an index handed out once stays valid; and the map from
    slot index to the nodes that slot's draw call returned (the `drawnElements` array). */
module Slots {
  import opened Wrappers
  import opened Dom

  /** The indices below `n` that still hold a child, ascending: what `for (var i in children)`
      visits among the first `n` slots (holes are not enumerated). */
  function LiveUpTo<T>(s: seq<Option<T>>, n: int): seq<int>
    requires 0 <= n <= |s|
    decreases n
  {
    if n == 0 then [] else LiveUpTo(s, n - 1) + (if s[n - 1].Some? then [n - 1] else [])
  }

  /** The live indices below `n` are exactly the slots below `n` that hold a child ... */
  lemma {:induction false} LiveUpToMembers<T>(s: seq<Option<T>>, n: int)
    requires 0 <= n <= |s|
    ensures forall i :: i in LiveUpTo(s, n) <==> 0 <= i < n && s[i].Some?
    decreases n
  {
    if n > 0 {
      LiveUpToMembers(s, n - 1);
    }
  }

  /** ... and they come in strictly ascending order. */
  lemma {:induction false} LiveUpToAscending<T>(s: seq<Option<T>>, n: int)
    requires 0 <= n <= |s|
    ensures forall a, b :: 0 <= a < b < |LiveUpTo(s, n)| ==> LiveUpTo(s, n)[a] < LiveUpTo(s, n)[b]
    decreases n
  {
    if n > 0 {
      var r := LiveUpTo(s, n - 1);
      LiveUpToAscending(s, n - 1);
      LiveUpToMembers(s, n - 1);
      assert forall a :: 0 <= a < |r| ==> r[a] < n - 1 by {
        forall a | 0 <= a < |r| ensures r[a] < n - 1 {
          assert r[a] in r;
        }
      }
    }
  }

  /** Every live slot, in ascending index order. */
  function LiveSlots<T>(s: seq<Option<T>>): seq<int> {
    LiveUpTo(s, |s|)
  }

  lemma LiveSlotsSpec<T>(s: seq<Option<T>>)
    ensures forall i :: i in LiveSlots(s) <==> 0 <= i < |s| && s[i].Some?
    ensures forall a, b :: 0 <= a < b < |LiveSlots(s)| ==> LiveSlots(s)[a] < LiveSlots(s)[b]
  {
    LiveUpToMembers(s, |s|);
    LiveUpToAscending(s, |s|);
  }

  /** `delete s[i]`: slot `i` becomes a hole; the length and every other slot stay as they are,
      and an index outside the array changes nothing. */
  function Tombstone<T>(s: seq<Option<T>>, i: int): (r: seq<Option<T>>)
    ensures |r| == |s|
    ensures forall j :: 0 <= j < |s| && j != i ==> r[j] == s[j]
    ensures 0 <= i < |s| ==> r[i].None?
  {
    if 0 <= i < |s| then s[i := None] else s
  }

  /** Appending a child (`children.push`) keeps every live index and their order, and adds the
      new slot, numbered with the old length, last. */
  lemma {:induction false} LiveSlotsPush<T>(s: seq<Option<T>>, x: T)
    ensures LiveSlots(s + [Some(x)]) == LiveSlots(s) + [|s|]
  {
    LiveUpToPrefix(s, [Some(x)], |s|);
  }

  /** The live indices below `n` only depend on the first `n` slots. */
  lemma {:induction false} LiveUpToPrefix<T>(s: seq<Option<T>>, t: seq<Option<T>>, n: int)
    requires 0 <= n <= |s|
    ensures LiveUpTo(s + t, n) == LiveUpTo(s, n)
    decreases n
  {
    if n > 0 {
      LiveUpToPrefix(s, t, n - 1);
      assert (s + t)[n - 1] == s[n - 1];
    }
  }

  /** The handle stored for slot `k`, empty when the slot has none. */
  function Slot(m: map<int, seq<NodeId>>, k: int): seq<NodeId> {
    if k in m then m[k] else []
  }

  /** The handles of the slots `lo <= k < hi`, concatenated in ascending slot order. */
  function InOrder(m: map<int, seq<NodeId>>, lo: int, hi: int): seq<NodeId>
    decreases hi - lo
  {
    if hi <= lo then [] else InOrder(m, lo, hi - 1) + Slot(m, hi - 1)
  }

  /** The slots that hold a child. */
  function LiveKeys<T>(s: seq<Option<T>>): set<int> {
    set k | 0 <= k < |s| && s[k].Some?
  }

  lemma {:induction false} InOrderSplit(m: map<int, seq<NodeId>>, lo: int, mid: int, hi: int)
    requires lo <= mid <= hi
    ensures InOrder(m, lo, hi) == InOrder(m, lo, mid) + InOrder(m, mid, hi)
    decreases hi - mid
  {
    if mid < hi {
      InOrderSplit(m, lo, mid, hi - 1);
    }
  }

  /** Two maps that agree on the handles of the slots in `[lo, hi)` list the same nodes there. */
  lemma {:induction false} InOrderAgree(m1: map<int, seq<NodeId>>, m2: map<int, seq<NodeId>>, lo: int, hi: int)
    requires forall k :: lo <= k < hi ==> Slot(m1, k) == Slot(m2, k)
    ensures InOrder(m1, lo, hi) == InOrder(m2, lo, hi)
    decreases hi - lo
  {
    if lo < hi {
      InOrderAgree(m1, m2, lo, hi - 1);
    }
  }

  /** Every node of a slot's handle occurs in the concatenation of the handles. */
  lemma {:induction false} InOrderMember(m: map<int, seq<NodeId>>, lo: int, hi: int, k: int, n: NodeId)
    requires lo <= k < hi && n in Slot(m, k)
    ensures n in InOrder(m, lo, hi)
    decreases hi - lo
  {
    if k < hi - 1 {
      InOrderMember(m, lo, hi - 1, k, n);
    }
  }

  /** Changing only slot `k` changes only the middle piece of the concatenation. */
  lemma InOrderAround(m: map<int, seq<NodeId>>, m2: map<int, seq<NodeId>>, k: int, lo: int, hi: int)
    requires lo <= k < hi
    requires forall j :: lo <= j < hi && j != k ==> Slot(m, j) == Slot(m2, j)
    ensures InOrder(m2, lo, hi) == InOrder(m, lo, k) + Slot(m2, k) + InOrder(m, k + 1, hi)
  {
    InOrderSplit(m2, lo, k, hi);
    InOrderSplit(m2, k, k + 1, hi);
    assert InOrder(m2, k, k + 1) == Slot(m2, k) by {
      assert InOrder(m2, k, k) == [];
    }
    InOrderAgree(m, m2, lo, k);
    InOrderAgree(m, m2, k + 1, hi);
    ConcatAssoc(InOrder(m, lo, k), Slot(m2, k), InOrder(m, k + 1, hi));
  }

  lemma ConcatAssoc(a: seq<NodeId>, b: seq<NodeId>, c: seq<NodeId>)
    ensures a + (b + c) == a + b + c
  {
  }

  /** Storing a new handle `h` for slot `k` replaces exactly that slot's piece of the
      concatenation. */
  lemma InOrderReplace(m: map<int, seq<NodeId>>, k: int, h: seq<NodeId>, n: int)
    requires 0 <= k < n
    ensures InOrder(m, 0, n) == InOrder(m, 0, k) + Slot(m, k) + InOrder(m, k + 1, n)
    ensures InOrder(m[k := h], 0, n) == InOrder(m, 0, k) + h + InOrder(m, k + 1, n)
  {
    InOrderAround(m, m, k, 0, n);
    InOrderAround(m, m[k := h], k, 0, n);
  }

  /** Forgetting slot `k`'s handle drops exactly that slot's piece of the concatenation. */
  lemma InOrderRemove(m: map<int, seq<NodeId>>, k: int, n: int)
    requires 0 <= k < n
    ensures InOrder(m, 0, n) == InOrder(m, 0, k) + Slot(m, k) + InOrder(m, k + 1, n)
    ensures InOrder(m - {k}, 0, n) == InOrder(m, 0, k) + InOrder(m, k + 1, n)
  {
    InOrderAround(m, m, k, 0, n);
    InOrderAround(m, m - {k}, k, 0, n);
    assert Slot(m - {k}, k) == [];
  }

  /** The handles part-way through a full drawing pass: the new handle for the slots below `i`,
      the old one from slot `i` on. */
  function Merge(newer: map<int, seq<NodeId>>, older: map<int, seq<NodeId>>, i: int): map<int, seq<NodeId>> {
    map k | k in newer.Keys + older.Keys && ((k in newer && k < i) || (k in older && k >= i)) :: if k < i then newer[k] else older[k]
  }

  lemma MergeStart(newer: map<int, seq<NodeId>>, older: map<int, seq<NodeId>>)
    requires forall k :: k in newer ==> 0 <= k
    requires forall k :: k in older ==> 0 <= k
    ensures Merge(newer, older, 0) == older
  {
  }

  lemma MergeEnd(newer: map<int, seq<NodeId>>, older: map<int, seq<NodeId>>, n: int)
    requires forall k :: k in newer ==> k < n
    requires forall k :: k in older ==> k < n
    ensures Merge(newer, older, n) == newer
  {
  }

  /** Drawing slot `i` moves the boundary one slot up; a slot without a child on either side
      moves it without any change. */
  lemma MergeStep(newer: map<int, seq<NodeId>>, older: map<int, seq<NodeId>>, i: int)
    ensures Slot(Merge(newer, older, i), i) == Slot(older, i)
    ensures i in newer ==> Merge(newer, older, i)[i := newer[i]] == Merge(newer, older, i + 1)
    ensures i !in newer && i !in older ==> Merge(newer, older, i) == Merge(newer, older, i + 1)
  {
  }

  /** Part-way through the pass the handles list the new nodes of the slots below `i`, then the
      old nodes of the others. */
  lemma MergeInOrder(newer: map<int, seq<NodeId>>, older: map<int, seq<NodeId>>, i: int, n: int)
    requires 0 <= i <= n
    ensures InOrder(Merge(newer, older, i), 0, n) == InOrder(newer, 0, i) + InOrder(older, i, n)
  {
    var m := Merge(newer, older, i);
    InOrderSplit(m, 0, i, n);
    assert forall k :: 0 <= k < i ==> Slot(m, k) == Slot(newer, k);
    InOrderAgree(m, newer, 0, i);
    assert forall k :: i <= k < n ==> Slot(m, k) == Slot(older, k);
    InOrderAgree(m, older, i, n);
  }

  /** The handles after a full drawing pass has handled the slots below `i`: each live slot's
      handle in turn replaced by its new one. */
  function PassDrawn(older: map<int, seq<NodeId>>, newer: map<int, seq<NodeId>>, i: nat): map<int, seq<NodeId>>
    decreases i
  {
    if i == 0 then older
    else if i - 1 in newer then PassDrawn(older, newer, i - 1)[i - 1 := newer[i - 1]]
    else PassDrawn(older, newer, i - 1)
  }

  /** The drawing region after a full drawing pass has handled the slots below `i`: for each
      live slot in turn, its old handle is taken out and its new nodes are appended. */
  function PassRegion(r0: seq<NodeId>, older: map<int, seq<NodeId>>, newer: map<int, seq<NodeId>>, i: nat): seq<NodeId>
    decreases i
  {
    if i == 0 then r0
    else if i - 1 in newer then Without(PassRegion(r0, older, newer, i - 1), Slot(older, i - 1)) + newer[i - 1]
    else PassRegion(r0, older, newer, i - 1)
  }

  /** When every old handle belongs to a slot that gets a new one, the handles part-way
      through the pass are the new ones below `i` and the old ones from `i` on. */
  lemma {:induction false} PassDrawnMerge(older: map<int, seq<NodeId>>, newer: map<int, seq<NodeId>>, i: nat)
    requires older.Keys <= newer.Keys
    requires forall k :: k in newer ==> 0 <= k
    ensures PassDrawn(older, newer, i) == Merge(newer, older, i)
  {
    if i == 0 {
      MergeStart(newer, older);
    } else {
      PassDrawnMerge(older, newer, i - 1);
      MergeStep(newer, older, i - 1);
    }
  }

  /** The closed form of the region part-way through the pass: the old contents without the
      old handles below `i`, then the new handles below `i` in slot order. It needs the new
      nodes to be distinct from each other and from the old handles. */
  lemma {:induction false} PassRegionClosed(r0: seq<NodeId>, older: map<int, seq<NodeId>>, newer: map<int, seq<NodeId>>,
                                            i: nat, n: int)
    requires i <= n
    requires older.Keys <= newer.Keys
    requires Distinct(InOrder(newer, 0, n))
    requires Disjoint(InOrder(newer, 0, n), InOrder(older, 0, n))
    ensures PassRegion(r0, older, newer, i) == Without(r0, InOrder(older, 0, i)) + InOrder(newer, 0, i)
  {
    if i == 0 {
      WithoutAbsent(r0, []);
    } else {
      var k := i - 1;
      PassRegionClosed(r0, older, newer, k, n);
      var removed, done := InOrder(older, 0, k), InOrder(newer, 0, k);
      if k in newer {
        var s, p := Slot(older, k), newer[k];
        InOrderSplit(newer, 0, k, n);
        InOrderReplace(older, k, s, n);
        assert Disjoint(done, s) by {
          forall x | x in done ensures x !in s {
            assert x in InOrder(newer, 0, n);
          }
        }
        RegionStep(r0, removed, done, s, p);
      } else {
        assert InOrder(older, 0, i) == removed + [] == removed;
        assert InOrder(newer, 0, i) == done + [] == done;
      }
    }
  }

  /** Drawing live slot `i` in a full pass: the slot still holds its old handle, and its new
      nodes have no repeats and are new to the current region and handles, provided the new
      nodes of the whole pass have no repeats and are new to the region and the handles the
      pass started from. */
  lemma PassLive(r0: seq<NodeId>, older: map<int, seq<NodeId>>, newer: map<int, seq<NodeId>>, i: nat, n: int)
    requires i < n && i in newer
    requires older.Keys <= newer.Keys
    requires forall k :: k in newer ==> 0 <= k
    requires Distinct(InOrder(newer, 0, n))
    requires Disjoint(InOrder(newer, 0, n), r0)
    requires Disjoint(InOrder(newer, 0, n), InOrder(older, 0, n))
    ensures Slot(PassDrawn(older, newer, i), i) == Slot(older, i)
    ensures Distinct(newer[i])
    ensures Disjoint(newer[i], PassRegion(r0, older, newer, i))
    ensures Disjoint(newer[i], InOrder(PassDrawn(older, newer, i), 0, n))
  {
    var p := newer[i];
    var done, removed := InOrder(newer, 0, i), InOrder(older, 0, i);
    var all, oall := InOrder(newer, 0, n), InOrder(older, 0, n);
    PassDrawnMerge(older, newer, i);
    MergeStep(newer, older, i);
    PassRegionClosed(r0, older, newer, i, n);
    InOrderReplace(newer, i, p, n);
    assert Slot(newer, i) == p;
    DistinctMiddle(done, p, InOrder(newer, i + 1, n));
    InOrderSplit(older, 0, i, n);
    MergeInOrder(newer, older, i, n);
    WithoutSpec(r0, removed);
    forall x | x in p ensures x !in PassRegion(r0, older, newer, i) && x !in InOrder(PassDrawn(older, newer, i), 0, n) {
      assert x in all;
      assert x !in r0 && x !in oall;
    }
  }

  /** At the end of the pass every slot holds its new handle, and the region is its old
      contents without the old handles, followed by the new handles in slot order. */
  lemma PassEnd(r0: seq<NodeId>, older: map<int, seq<NodeId>>, newer: map<int, seq<NodeId>>, n: nat)
    requires older.Keys <= newer.Keys
    requires forall k :: k in newer ==> 0 <= k < n
    requires Distinct(InOrder(newer, 0, n))
    requires Disjoint(InOrder(newer, 0, n), InOrder(older, 0, n))
    ensures PassDrawn(older, newer, n) == newer
    ensures PassRegion(r0, older, newer, n) == Without(r0, InOrder(older, 0, n)) + InOrder(newer, 0, n)
  {
    PassDrawnMerge(older, newer, n);
    MergeEnd(newer, older, n);
    PassRegionClosed(r0, older, newer, n, n);
  }

  /** Undrawing slot `k` and then storing nodes `p`, new to the region and to every handle and
      without repeats, as its handle and appending them to the region keeps both the region and
      the handles free of repeats. */
  lemma HandleStored(region: seq<NodeId>, m: map<int, seq<NodeId>>, k: int, n: int, p: seq<NodeId>)
    requires 0 <= k < n
    requires Distinct(region) && Distinct(InOrder(m, 0, n))
    requires Distinct(p) && Disjoint(p, region) && Disjoint(p, InOrder(m, 0, n))
    ensures Distinct(Without(region, Slot(m, k)) + p)
    ensures Distinct(InOrder(m[k := p], 0, n))
  {
    var left, mid, right := InOrder(m, 0, k), Slot(m, k), InOrder(m, k + 1, n);
    InOrderReplace(m, k, p, n);
    assert Disjoint(p, left) && Disjoint(p, right);
    DistinctReplace(left, mid, right, p);
    var w := Without(region, mid);
    WithoutSpec(region, mid);
    assert Disjoint(w, p);
    DistinctConcat(w, p);
  }
}
