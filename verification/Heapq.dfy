/**
 * The part of Python's heapq that the simplifier uses. Only its contract matters here:
 * a pop returns the least tuple and leaves the others.
 */
module Heapq {
  import opened Text

  /** The tuple (-amount, user_id). */
  datatype Item = Item(key: int, uid: string)

  /** Python's order on such tuples. */
  predicate Less(a: Item, b: Item) {
    a.key < b.key || (a.key == b.key && Before(a.uid, b.uid))
  }

  method Push(heap: seq<Item>, x: Item) returns (heap': seq<Item>)
    ensures multiset(heap') == multiset(heap) + multiset{x}
  {
    heap' := heap + [x];
  }

  method Pop(heap: seq<Item>) returns (top: Item, rest: seq<Item>)
    requires heap != []
    ensures top in heap && multiset(rest) == multiset(heap) - multiset{top}
    ensures forall x :: x in heap ==> x == top || Less(top, x)
  {
    var k := 0;
    for i := 1 to |heap|
      invariant 0 <= k < i
      invariant forall j :: 0 <= j < i ==> heap[j] == heap[k] || Less(heap[k], heap[j])
    {
      BeforeTotal(heap[i].uid, heap[k].uid);
      if Less(heap[i], heap[k]) {
        forall j | 0 <= j < i
          ensures heap[j] == heap[i] || Less(heap[i], heap[j])
        {
          if Before(heap[i].uid, heap[k].uid) && Before(heap[k].uid, heap[j].uid) {
            BeforeTransitive(heap[i].uid, heap[k].uid, heap[j].uid);
          }
        }
        k := i;
      }
    }
    top := heap[k];
    rest := heap[..k] + heap[k + 1..];
    assert heap == heap[..k] + [heap[k]] + heap[k + 1..];
  }
}
