/** `LicenseQueue` and the operations of `container/heap` that the registry calls on it. */
module LicenseQueues {
  import opened Licenses
  import opened Heaps

  /** A slice behind a pointer: what `&q` is when the registry hands it to `container/heap`. */
  class LicenseQueue {
    var items: seq<License>

    constructor (items: seq<License>)
      ensures this.items == items
    {
      this.items := items;
    }

    function Len(): nat
      reads this
    {
      |items|
    }

    predicate LessAt(i: nat, j: nat)
      requires i < Len() && j < Len()
      reads this
    {
      Less(items[i], items[j])
    }

    method Swap(i: nat, j: nat)
      requires i < Len() && j < Len()
      modifies this
      ensures items == Swapped(old(items), i, j)
      ensures multiset(items) == old(multiset(items))
    {
      SwappedKeepsElements(items, i, j);
      items := items[i := items[j]][j := items[i]];
    }

    method Push(x: License)
      modifies this
      ensures items == old(items) + [x]
    {
      items := items + [x];
    }

    method Pop() returns (x: License)
      requires Len() > 0
      modifies this
      ensures old(items) == items + [x]
    {
      var n := Len();
      x := items[n - 1];
      items := items[..n - 1];
    }
  }

  lemma {:induction false} SwapWithin(q: seq<License>, n: nat, i: nat, j: nat)
    requires i < n <= |q| && j < n
    ensures Swapped(q, i, j)[..n] == Swapped(q[..n], i, j)
    ensures Swapped(q, i, j)[n..] == q[n..]
  {
  }

  method Up(h: LicenseQueue, j0: nat)
    requires j0 < h.Len()
    modifies h
    ensures h.items == SiftUp(old(h.items), j0)
  {
    var j: nat := j0;
    while true
      invariant j < h.Len()
      invariant SiftUp(h.items, j) == SiftUp(old(h.items), j0)
      decreases j
    {
      var i := Parent(j);
      if i == j || !h.LessAt(j, i) {
        break;
      }
      h.Swap(i, j);
      j := i;
    }
  }

  /** `down` sifts within the first `n` entries and leaves the others where they are. */
  method Down(h: LicenseQueue, i0: nat, n: nat)
    requires i0 <= n <= h.Len()
    modifies h
    ensures h.items == SiftDown(old(h.items)[..n], i0) + old(h.items)[n..]
  {
    var i := i0;
    ghost var goal, rest := SiftDown(h.items[..n], i0), h.items[n..];
    while true
      invariant i <= n <= h.Len()
      invariant SiftDown(h.items[..n], i) == goal
      invariant h.items[n..] == rest
      decreases n - i
    {
      var j1 := 2 * i + 1;
      if j1 >= n {
        break;
      }
      var j := j1;
      var j2 := j1 + 1;
      if j2 < n && h.LessAt(j2, j1) {
        j := j2;
      }
      if !h.LessAt(j, i) {
        break;
      }
      SwapWithin(h.items, n, i, j);
      h.Swap(i, j);
      i := j;
    }
    assert h.items == h.items[..n] + h.items[n..];
  }

  method HeapPush(h: LicenseQueue, x: License)
    modifies h
    ensures h.items == Heaps.Push(old(h.items), x)
  {
    h.Push(x);
    Up(h, h.Len() - 1);
  }

  method HeapPop(h: LicenseQueue) returns (x: License)
    requires h.Len() > 0
    modifies h
    ensures x == old(h.items)[0]
    ensures h.items == Heaps.Pop(old(h.items))
  {
    var n := h.Len() - 1;
    h.Swap(0, n);
    Down(h, 0, n);
    assert Swapped(old(h.items), 0, n)[n..] == [old(h.items)[0]];
    ghost var sifted := h.items;
    x := h.Pop();
    assert h.items == sifted[..n] && x == sifted[n];
  }
}
