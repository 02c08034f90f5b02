/** The binary heap that `container/heap` keeps over a `LicenseQueue`, as functions on sequences. */
module Heaps {
  import opened Licenses

  function Parent(j: nat): nat {
    if j == 0 then 0 else (j - 1) / 2
  }

  function Swapped(q: seq<License>, i: nat, j: nat): (r: seq<License>)
    requires i < |q| && j < |q|
    ensures |r| == |q|
  {
    q[i := q[j]][j := q[i]]
  }

  function SiftUp(q: seq<License>, j: nat): (r: seq<License>)
    requires j < |q|
    ensures |r| == |q|
    decreases j
  {
    var i := Parent(j);
    if i == j || !Less(q[j], q[i]) then q else SiftUp(Swapped(q, i, j), i)
  }

  /** The child that `down` compares with node `i`: the right one only if strictly less. */
  function Child(q: seq<License>, i: nat): (j: nat)
    requires 2 * i + 1 < |q|
    ensures i < j < |q| && Parent(j) == i
  {
    var j1 := 2 * i + 1;
    if j1 + 1 < |q| && Less(q[j1 + 1], q[j1]) then j1 + 1 else j1
  }

  function SiftDown(q: seq<License>, i: nat): (r: seq<License>)
    ensures |r| == |q|
    decreases |q| - i
  {
    if 2 * i + 1 >= |q| then q
    else
      var j := Child(q, i);
      if !Less(q[j], q[i]) then q else SiftDown(Swapped(q, i, j), j)
  }

  function Push(q: seq<License>, l: License): (r: seq<License>)
    ensures |r| == |q| + 1
  {
    SiftUp(q + [l], |q|)
  }

  /** The last entry moved to the root, as `heap.Pop` does before sifting it down. */
  function LastToRoot(q: seq<License>): (r: seq<License>)
    requires q != []
    ensures |r| == |q| - 1
  {
    Swapped(q, 0, |q| - 1)[..|q| - 1]
  }

  /** What is left once `heap.Pop` has taken the root. */
  function Pop(q: seq<License>): (r: seq<License>)
    requires q != []
    ensures |r| == |q| - 1
  {
    SiftDown(LastToRoot(q), 0)
  }

  ghost predicate InOrder(q: seq<License>, j: nat)
    requires j < |q|
  {
    !Less(q[j], q[Parent(j)])
  }

  ghost predicate IsHeap(q: seq<License>) {
    forall j: nat :: j < |q| ==> InOrder(q, j)
  }

  /** A heap but for node `j`, whose children are not less than its parent. */
  ghost predicate HeapBut(q: seq<License>, j: nat)
    requires j < |q|
  {
    && (forall k: nat :: k < |q| && k != j ==> InOrder(q, k))
    && (forall k: nat :: k < |q| && Parent(k) == j && k != 0 ==> !Less(q[k], q[Parent(j)]))
  }

  /** A heap but for the children of node `i`, which are not less than its parent. */
  ghost predicate HeapBelowBut(q: seq<License>, i: nat)
    requires i < |q|
  {
    && (forall k: nat :: k < |q| && (k == 0 || Parent(k) != i) ==> InOrder(q, k))
    && (forall k: nat :: k < |q| && Parent(k) == i && k != 0 && i != 0 ==> !Less(q[k], q[Parent(i)]))
  }

  lemma {:induction false} SwappedKeepsElements(q: seq<License>, i: nat, j: nat)
    requires i < |q| && j < |q|
    ensures multiset(Swapped(q, i, j)) == multiset(q)
  {
  }

  lemma {:induction false} SiftUpRestoresHeap(q: seq<License>, j: nat)
    requires j < |q| && HeapBut(q, j)
    ensures IsHeap(SiftUp(q, j))
    ensures multiset(SiftUp(q, j)) == multiset(q)
    decreases j
  {
    var i := Parent(j);
    if i == j || !Less(q[j], q[i]) {
    } else {
      var q' := Swapped(q, i, j);
      SwappedKeepsElements(q, i, j);
      forall k: nat | k < |q'| && k != i
        ensures InOrder(q', k)
      {
        if k != j && Parent(k) == j {
          assert InOrder(q, i);
        } else if k != j && Parent(k) == i && k != 0 {
          assert InOrder(q, k);
          LessIsStrictWeakOrder(q[j], q[i], q[k]);
        } else if k != j {
          assert InOrder(q, k);
        }
      }
      forall k: nat | k < |q'| && Parent(k) == i && k != 0
        ensures !Less(q'[k], q'[Parent(i)])
      {
        assert InOrder(q, i);
        if k != j && k != i {
          assert InOrder(q, k);
          LessIsStrictWeakOrder(q[Parent(i)], q[i], q[k]);
        }
      }
      SiftUpRestoresHeap(q', i);
    }
  }

  lemma {:induction false} ChildrenOf(i: nat, k: nat)
    requires k != 0 && Parent(k) == i
    ensures k == 2 * i + 1 || k == 2 * i + 2
  {
  }

  lemma {:induction false} ChildIsLeast(q: seq<License>, i: nat, k: nat)
    requires 2 * i + 1 < |q| && k < |q| && k != 0 && Parent(k) == i
    ensures !Less(q[k], q[Child(q, i)])
  {
    ChildrenOf(i, k);
    LessIsStrictWeakOrder(q[k], q[Child(q, i)], q[k]);
  }

  lemma {:induction false} SiftDownStops(q: seq<License>, i: nat)
    requires i < |q| && HeapBelowBut(q, i)
    requires 2 * i + 1 < |q| ==> !Less(q[Child(q, i)], q[i])
    ensures IsHeap(q)
  {
    forall k: nat | k < |q|
      ensures InOrder(q, k)
    {
      if k != 0 && Parent(k) == i {
        ChildrenOf(i, k);
        ChildIsLeast(q, i, k);
        LessIsStrictWeakOrder(q[i], q[Child(q, i)], q[k]);
      }
    }
  }

  lemma {:induction false} SiftDownStep(q: seq<License>, i: nat)
    requires 2 * i + 1 < |q| && HeapBelowBut(q, i)
    requires Less(q[Child(q, i)], q[i])
    ensures HeapBelowBut(Swapped(q, i, Child(q, i)), Child(q, i))
  {
    var j := Child(q, i);
    var q' := Swapped(q, i, j);
    forall k: nat | k < |q| && (k == 0 || Parent(k) != j)
      ensures InOrder(q', k)
    {
      if k == i {
        if i != 0 {
          assert !Less(q[j], q[Parent(i)]);
        } else {
          LessIsStrictWeakOrder(q[j], q[j], q[j]);
        }
      } else if k == j {
        LessIsStrictWeakOrder(q[j], q[i], q[i]);
      } else if k != 0 && Parent(k) == i {
        ChildIsLeast(q, i, k);
      } else {
        assert InOrder(q, k);
      }
    }
    forall k: nat | k < |q| && Parent(k) == j && k != 0
      ensures !Less(q'[k], q'[Parent(j)])
    {
      assert k != i && k != j;
      assert InOrder(q, k);
    }
  }

  lemma {:induction false} SiftDownRestoresHeap(q: seq<License>, i: nat)
    requires i < |q| && HeapBelowBut(q, i)
    ensures IsHeap(SiftDown(q, i))
    ensures multiset(SiftDown(q, i)) == multiset(q)
    decreases |q| - i
  {
    if 2 * i + 1 >= |q| || !Less(q[Child(q, i)], q[i]) {
      SiftDownStops(q, i);
    } else {
      SiftDownStep(q, i);
      SwappedKeepsElements(q, i, Child(q, i));
      SiftDownRestoresHeap(Swapped(q, i, Child(q, i)), Child(q, i));
    }
  }

  /** `heap.Push` keeps heap order and adds exactly the new licence. */
  lemma {:induction false} PushKeepsHeap(q: seq<License>, l: License)
    requires IsHeap(q)
    ensures IsHeap(Push(q, l))
    ensures multiset(Push(q, l)) == multiset(q) + multiset{l}
  {
    var q' := q + [l];
    forall k: nat | k < |q'| && k != |q|
      ensures InOrder(q', k)
    {
      assert InOrder(q, k);
    }
    SiftUpRestoresHeap(q', |q|);
  }

  lemma {:induction false} LastToRootElements(q: seq<License>)
    requires q != []
    ensures multiset(LastToRoot(q)) == multiset(q) - multiset{q[0]}
  {
    var s := Swapped(q, 0, |q| - 1);
    SwappedKeepsElements(q, 0, |q| - 1);
    assert s == LastToRoot(q) + [q[0]];
  }

  lemma {:induction false} LastToRootOrder(q: seq<License>)
    requires IsHeap(q) && |q| > 1
    ensures HeapBelowBut(LastToRoot(q), 0)
  {
    var s := LastToRoot(q);
    forall k: nat | k < |s| && (k == 0 || Parent(k) != 0)
      ensures InOrder(s, k)
    {
      if k == 0 {
        LessIsStrictWeakOrder(s[0], s[0], s[0]);
      } else {
        assert InOrder(q, k);
        assert s[k] == q[k] && s[Parent(k)] == q[Parent(k)];
      }
    }
  }

  /** `heap.Pop` keeps heap order and takes exactly the root. */
  lemma {:induction false} PopKeepsHeap(q: seq<License>)
    requires IsHeap(q) && q != []
    ensures IsHeap(Pop(q))
    ensures multiset(Pop(q)) == multiset(q) - multiset{q[0]}
  {
    LastToRootElements(q);
    if |q| > 1 {
      LastToRootOrder(q);
      SiftDownRestoresHeap(LastToRoot(q), 0);
    }
  }

  /** No entry of a heap is less than its root. */
  lemma {:induction false} RootIsLeast(q: seq<License>, k: nat)
    requires IsHeap(q) && k < |q|
    ensures !Less(q[k], q[0])
    decreases k
  {
    LessIsStrictWeakOrder(q[0], q[0], q[0]);
    if k > 0 {
      RootIsLeast(q, Parent(k));
      assert InOrder(q, k);
      LessIsStrictWeakOrder(q[0], q[Parent(k)], q[k]);
    }
  }
}
