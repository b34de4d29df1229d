/** The children of one DOM element (the plot's clipped drawing region) as a list of node ids. */
module Dom {

  type NodeId = int

  /** No node occurs twice: a DOM element never has the same child twice. */
  predicate Distinct(s: seq<NodeId>) {
    forall i, j :: 0 <= i < j < |s| ==> At(s, i) != At(s, j)
  }

  /** `s[i]`, under a name of its own so that facts about distinctness are only applied where a
      proof asks for them. */
  function At(s: seq<NodeId>, i: int): NodeId
    requires 0 <= i < |s|
  {
    s[i]
  }

  /** `a` and `b` share no node. */
  predicate Disjoint(a: seq<NodeId>, b: seq<NodeId>) {
    forall n :: n in a ==> n !in b
  }

  /** `r` with every node of `gone` taken out, the rest in their order: what `selection.remove()`
      does to the region for the nodes of a selection. */
  function Without(r: seq<NodeId>, gone: seq<NodeId>): seq<NodeId> {
    if r == [] then []
    else if r[0] in gone then Without(r[1..], gone)
    else [r[0]] + Without(r[1..], gone)
  }

  /** Exactly the nodes of `r` that are not in `gone` remain, and none twice if none was. */
  lemma {:induction false} WithoutSpec(r: seq<NodeId>, gone: seq<NodeId>)
    ensures forall n :: n in Without(r, gone) <==> n in r && n !in gone
    ensures |Without(r, gone)| <= |r|
    ensures Distinct(r) ==> Distinct(Without(r, gone))
  {
    if r != [] {
      WithoutSpec(r[1..], gone);
      assert r == [r[0]] + r[1..];
      DistinctConcat([r[0]], r[1..]);
      if r[0] !in gone {
        var rest := Without(r[1..], gone);
        if Distinct(r) {
          assert r[0] in [r[0]];
          assert Disjoint([r[0]], rest);
          DistinctConcat([r[0]], rest);
        }
      }
    }
  }

  /** DOM `appendChild`: the node ends up last, and a node that was already a child is moved
      rather than duplicated. */
  function AppendChild(r: seq<NodeId>, n: NodeId): (r': seq<NodeId>)
    ensures |r'| > 0 && r'[|r'| - 1] == n
    ensures forall m :: m in r' <==> m in r || m == n
    ensures Distinct(r) ==> Distinct(r')
  {
    var w := Without(r, [n]);
    WithoutSpec(r, [n]);
    DistinctConcat(w, [n]);
    w + [n]
  }

  lemma {:induction false} DistinctConcat(a: seq<NodeId>, b: seq<NodeId>)
    ensures Distinct(a + b) <==> Distinct(a) && Distinct(b) && Disjoint(a, b)
  {
    var c := a + b;
    if Distinct(c) {
      forall i, j | 0 <= i < j < |a| ensures At(a, i) != At(a, j) {
        assert At(c, i) == a[i] && At(c, j) == a[j];
      }
      forall i, j | 0 <= i < j < |b| ensures At(b, i) != At(b, j) {
        assert At(c, |a| + i) == b[i] && At(c, |a| + j) == b[j];
      }
      forall x | x in a ensures x !in b {
        var i :| 0 <= i < |a| && a[i] == x;
        forall j | 0 <= j < |b| ensures b[j] != x {
          assert At(c, i) == x && At(c, |a| + j) == b[j];
        }
      }
    }
    if Distinct(a) && Distinct(b) && Disjoint(a, b) {
      forall i, j | 0 <= i < j < |c| ensures At(c, i) != At(c, j) {
        if j < |a| {
          assert At(a, i) == c[i] && At(a, j) == c[j];
        } else if |a| <= i {
          assert At(b, i - |a|) == c[i] && At(b, j - |a|) == c[j];
        } else {
          assert c[i] == a[i] && c[j] == b[j - |a|];
          assert c[i] in a && c[j] in b;
        }
      }
    }
  }

  /** Replacing the middle piece of a list without repetitions by nodes that are new to the other
      pieces keeps it without repetitions. */
  lemma DistinctReplace(a: seq<NodeId>, s: seq<NodeId>, c: seq<NodeId>, h: seq<NodeId>)
    requires Distinct(a + s + c) && Distinct(h)
    requires Disjoint(h, a) && Disjoint(h, c)
    ensures Distinct(a + h + c)
  {
    DistinctConcat(a + s, c);
    DistinctConcat(a, s);
    DistinctConcat(a, h);
    DistinctConcat(a + h, c);
  }

  /** Dropping the middle piece of a list without repetitions keeps it without repetitions. */
  lemma DistinctDrop(a: seq<NodeId>, s: seq<NodeId>, c: seq<NodeId>)
    requires Distinct(a + s + c)
    ensures Distinct(a + c)
  {
    DistinctConcat(a + s, c);
    DistinctConcat(a, s);
    DistinctConcat(a, c);
  }

  /** When every node of a list without repetitions is in the region, taking the nodes of its
      middle piece out of the region leaves the nodes of the other two pieces in it. */
  lemma KeptAfterRemove(r: seq<NodeId>, a: seq<NodeId>, s: seq<NodeId>, c: seq<NodeId>)
    requires Distinct(a + s + c)
    requires forall n :: n in a + s + c ==> n in r
    ensures forall n :: n in a + c ==> n in Without(r, s)
  {
    DistinctConcat(a + s, c);
    DistinctConcat(a, s);
    WithoutSpec(r, s);
    forall n | n in a + c ensures n in Without(r, s) {
      if n in a {
        assert n in a + s + c;
      } else {
        assert n in c && n in a + s + c;
        assert n !in a + s;
      }
    }
  }

  /** The middle piece of a list without repetitions has none either, and shares no node with
      the piece before it. */
  lemma DistinctMiddle(a: seq<NodeId>, b: seq<NodeId>, c: seq<NodeId>)
    requires Distinct(a + b + c)
    ensures Distinct(b) && Disjoint(b, a)
  {
    DistinctConcat(a + b, c);
    DistinctConcat(a, b);
  }

  lemma {:induction false} WithoutConcat(a: seq<NodeId>, b: seq<NodeId>, gone: seq<NodeId>)
    ensures Without(a + b, gone) == Without(a, gone) + Without(b, gone)
  {
    if a != [] {
      assert (a + b)[0] == a[0] && (a + b)[1..] == a[1..] + b;
      WithoutConcat(a[1..], b, gone);
      if a[0] in gone {
        assert Without(a + b, gone) == Without(a[1..] + b, gone);
      } else {
        assert Without(a + b, gone) == [a[0]] + Without(a[1..] + b, gone);
      }
    } else {
      assert a + b == b;
    }
  }

  /** Taking out nodes that are not there changes nothing. */
  lemma {:induction false} WithoutAbsent(r: seq<NodeId>, gone: seq<NodeId>)
    requires Disjoint(r, gone)
    ensures Without(r, gone) == r
  {
    if r != [] {
      assert forall n :: n in r[1..] ==> n in r;
      WithoutAbsent(r[1..], gone);
      var x := r[0];
      assert x in r;
      assert x !in gone;
      assert Without(r, gone) == [r[0]] + Without(r[1..], gone);
      assert r == [r[0]] + r[1..];
    }
  }

  /** Taking out every node leaves nothing. */
  lemma {:induction false} WithoutCovered(r: seq<NodeId>, gone: seq<NodeId>)
    requires forall n :: n in r ==> n in gone
    ensures Without(r, gone) == []
  {
    if r != [] {
      assert forall n :: n in r[1..] ==> n in r;
      WithoutCovered(r[1..], gone);
      var x := r[0];
      assert x in r;
      assert x in gone;
      assert Without(r, gone) == Without(r[1..], gone);
    }
  }

  lemma {:induction false} WithoutTwice(r: seq<NodeId>, p: seq<NodeId>, q: seq<NodeId>)
    ensures Without(Without(r, p), q) == Without(r, p + q)
  {
    if r != [] {
      WithoutTwice(r[1..], p, q);
    }
  }

  /** One `appendChild` in the reordering loop: once the nodes `done` have been appended in
      order, appending one more node `x` keeps the closed form: every other node first, in its
      old order, followed by the appended nodes in the order they were appended. */
  lemma AppendStep(r0: seq<NodeId>, done: seq<NodeId>, x: NodeId)
    requires x !in done
    ensures AppendChild(Without(r0, done) + done, x) == Without(r0, done + [x]) + (done + [x])
  {
    WithoutConcat(Without(r0, done), done, [x]);
    WithoutAbsent(done, [x]);
    WithoutTwice(r0, done, [x]);
  }

  /** The inner step of re-appending the nodes `tmp` of one handle, when `before` (the handles of
      the lower slots) were appended already and no node occurs twice among all handles. */
  lemma ReorderStep(r0: seq<NodeId>, before: seq<NodeId>, tmp: seq<NodeId>, rest: seq<NodeId>, j: int)
    requires Distinct(before + tmp + rest) && 0 <= j < |tmp|
    ensures AppendChild(Without(r0, before + tmp[..j]) + (before + tmp[..j]), tmp[j])
         == Without(r0, before + tmp[..j + 1]) + (before + tmp[..j + 1])
  {
    DistinctConcat(before + tmp, rest);
    assert before + tmp == (before + tmp[..j]) + tmp[j..];
    DistinctConcat(before + tmp[..j], tmp[j..]);
    assert tmp[j] in tmp[j..];
    AppendStep(r0, before + tmp[..j], tmp[j]);
    assert tmp[..j + 1] == tmp[..j] + [tmp[j]];
    assert before + tmp[..j + 1] == (before + tmp[..j]) + [tmp[j]];
  }

  /** One child redrawn during a full drawing pass: its old handle `s` leaves the region and its
      new nodes `p` are appended after the handles already drawn. */
  lemma RegionStep(r0: seq<NodeId>, removed: seq<NodeId>, added: seq<NodeId>, s: seq<NodeId>, p: seq<NodeId>)
    requires Disjoint(added, s)
    ensures Without(Without(r0, removed) + added, s) + p == Without(r0, removed + s) + (added + p)
  {
    WithoutConcat(Without(r0, removed), added, s);
    WithoutAbsent(added, s);
    WithoutTwice(r0, removed, s);
  }
}
