/** The priority queue that orders Chimera's reports: a binary heap kept in a
    fixed array (src/util/pqueue.h), ordered by end, then start, then pattern.

    The specification of the queue is a sorted sequence. The array methods below
    are proved to keep the heap shape and to hold the same items. */
module MatchQueue {

  datatype Item = Item(from: nat, to: nat, id: nat)

  /** PQ_COMP: earlier end first, then earlier start, then lower pattern index. */
  predicate Less(a: Item, b: Item) {
    if a.to != b.to then a.to < b.to
    else if a.from != b.from then a.from < b.from
    else a.id < b.id
  }

  ghost predicate Sorted(q: seq<Item>) {
    forall i, j :: 0 <= i < j < |q| ==> !Less(q[j], q[i])
  }

  /** The specification of pq_insert: place x before the first larger item. */
  function Insert(q: seq<Item>, x: Item): (r: seq<Item>)
    ensures |r| == |q| + 1
    ensures multiset(r) == multiset(q) + multiset{x}
    ensures forall y :: y in r <==> y in q || y == x
  {
    if q == [] || Less(x, q[0]) then [x] + q
    else
      assert q == [q[0]] + q[1..];
      [q[0]] + Insert(q[1..], x)
  }

  lemma {:induction false} InsertSorted(q: seq<Item>, x: Item)
    requires Sorted(q)
    ensures Sorted(Insert(q, x))
  {
    if q != [] && !Less(x, q[0]) {
      InsertSorted(q[1..], x);
      var r := Insert(q[1..], x);
      assert Insert(q, x) == [q[0]] + r;
      forall j | 0 <= j < |r| ensures !Less(r[j], q[0]) {
        assert r[j] in r;
      }
    }
  }

  // ---------------------------------------------------------------- the heap

  /** pq_left and pq_right, read from either end. */
  predicate Child(p: int, c: int) {
    0 <= p && (c == 2 * p + 1 || c == 2 * p + 2)
  }

  /** No item is smaller than its parent. */
  ghost predicate Heap(a: seq<Item>) {
    forall p, c {:trigger Child(p, c)} :: Child(p, c) && c < |a| ==> !Less(a[c], a[p])
  }

  lemma {:induction false} HeapTop(a: seq<Item>, i: nat)
    requires Heap(a) && i < |a|
    ensures !Less(a[i], a[0])
  {
    if i > 0 {
      assert Child((i - 1) / 2, i);
      HeapTop(a, (i - 1) / 2);
    }
  }

  /** The top of the heap is the front of the sorted queue with the same items. */
  lemma HeapFront(a: seq<Item>, q: seq<Item>)
    requires Heap(a) && Sorted(q) && multiset(a) == multiset(q) && |a| > 0
    ensures |q| == |a| && q[0] == a[0]
  {
    assert |multiset(a)| == |multiset(q)|;
    assert a[0] in multiset(q) && q[0] in multiset(a);
    var i :| 0 <= i < |q| && q[i] == a[0];
    var j :| 0 <= j < |a| && a[j] == q[0];
    HeapTop(a, j);
  }

  lemma PoppedItems(a: seq<Item>, b: seq<Item>, q: seq<Item>)
    requires Sorted(q) && q != [] && multiset(a) == multiset(q)
    requires multiset(a) == multiset(b) + multiset{q[0]}
    ensures Sorted(q[1..]) && multiset(b) == multiset(q[1..])
  {
    assert q == [q[0]] + q[1..];
    forall x ensures multiset(b)[x] == multiset(q[1..])[x] {
      assert multiset(a)[x] == multiset(b)[x] + multiset{q[0]}[x];
      assert multiset(q)[x] == multiset(q[1..])[x] + multiset{q[0]}[x];
    }
  }

  function Swap(a: seq<Item>, i: nat, j: nat): (b: seq<Item>)
    requires i < |a| && j < |a|
    ensures |b| == |a| && multiset(b) == multiset(a)
    ensures b[i] == a[j] && b[j] == a[i] && forall k :: 0 <= k < |a| && k != i && k != j ==> b[k] == a[k]
  {
    a[i := a[j]][j := a[i]]
  }

  /** A heap in which a new item is rising and has reached `pos`: it is in order
      with its children, and they are in order with its parent. */
  ghost predicate Rising(a: seq<Item>, pos: nat) {
    && pos < |a|
    && (forall p, c {:trigger Child(p, c)} :: Child(p, c) && c < |a| && c != pos ==> !Less(a[c], a[p]))
    && (forall p, c {:trigger Child(p, pos), Child(pos, c)} ::
          Child(p, pos) && Child(pos, c) && c < |a| ==> !Less(a[c], a[p]))
  }

  lemma RisingStart(a: seq<Item>, x: Item)
    requires Heap(a)
    ensures Rising(a + [x], |a|) && multiset(a + [x]) == multiset(a) + multiset{x}
  {
    var b := a + [x];
    forall p, c {:trigger Child(p, c)} | Child(p, c) && c < |b| && c != |a|
      ensures !Less(b[c], b[p])
    {
    }
  }

  lemma RisingStep(a: seq<Item>, p: nat, pos: nat)
    requires Rising(a, pos) && Child(p, pos) && !Less(a[p], a[pos])
    ensures Rising(Swap(a, pos, p), p)
  {
    var b := Swap(a, pos, p);
    forall q, c {:trigger Child(q, c)} | Child(q, c) && c < |b| && c != p
      ensures !Less(b[c], b[q])
    {
      if q == pos {
        assert Child(p, pos) && Child(pos, c);
      }
    }
    forall q, c {:trigger Child(q, p), Child(p, c)} | Child(q, p) && Child(p, c) && c < |b|
      ensures !Less(b[c], b[q])
    {
    }
  }

  lemma RisingEnd(a: seq<Item>, pos: nat)
    requires Rising(a, pos) && (pos == 0 || Less(a[(pos - 1) / 2], a[pos]))
    ensures Heap(a)
  {
    forall p, c {:trigger Child(p, c)} | Child(p, c) && c < |a|
      ensures !Less(a[c], a[p])
    {
      if c == pos {
        assert p == (pos - 1) / 2;
      }
    }
  }

  /** pq_insert: a hole rises from the end, then the new item is written there. */
  method PqInsert(items: array<Item>, count: nat, x: Item)
    requires count < items.Length
    requires Heap(items[..count])
    modifies items
    ensures Heap(items[..count + 1])
    ensures multiset(items[..count + 1]) == multiset(old(items[..count])) + multiset{x}
  {
    hide Rising, Heap, Swap, Less;
    ghost var a := items[..count] + [x];
    RisingStart(items[..count], x);
    ghost var goal := multiset(a);
    var pos := count;
    while pos > 0
      invariant pos <= count
      invariant |a| == count + 1 && a[pos] == x && multiset(a) == goal
      invariant Rising(a, pos)
      invariant forall i :: 0 <= i <= count && i != pos ==> items[i] == a[i]
    {
      var parent := (pos - 1) / 2;
      if !Less(items[parent], x) {
        RisingStep(a, parent, pos);
        a := Swap(a, pos, parent);
        items[pos] := items[parent];
        pos := parent;
      } else {
        break;
      }
    }
    items[pos] := x;
    RisingEnd(a, pos);
    assert items[..count + 1] == a;
  }

  /** A heap in which an item is sinking and has reached `pos`: it may be larger
      than its children, which are in order with its parent. */
  ghost predicate Sinking(a: seq<Item>, pos: nat) {
    && pos < |a|
    && (forall p, c {:trigger Child(p, c)} :: Child(p, c) && c < |a| && p != pos ==> !Less(a[c], a[p]))
    && (forall p, c {:trigger Child(p, pos), Child(pos, c)} ::
          Child(p, pos) && Child(pos, c) && c < |a| ==> !Less(a[c], a[p]))
  }

  lemma SinkingStart(a: seq<Item>, b: seq<Item>)
    requires Heap(a) && |a| == |b| + 1
    requires forall i :: 0 < i < |b| ==> b[i] == a[i]
    requires b != [] ==> b[0] == a[|b|]
    ensures (b == [] || Sinking(b, 0)) && multiset(a) == multiset(b) + multiset{a[0]}
  {
    var n := |b|;
    if n == 0 {
      assert a == [a[0]];
    } else {
      assert a == [a[0]] + a[1..n] + [a[n]];
      assert b == [a[n]] + a[1..n];
      forall p, c {:trigger Child(p, c)} | Child(p, c) && c < |b| && p != 0
        ensures !Less(b[c], b[p])
      {
      }
    }
  }

  lemma SinkingStep(a: seq<Item>, pos: nat, c: nat)
    requires Sinking(a, pos) && Child(pos, c) && c < |a| && Less(a[c], a[pos])
    requires forall d {:trigger Child(pos, d)} :: Child(pos, d) && d < |a| ==> !Less(a[d], a[c])
    ensures Sinking(Swap(a, pos, c), c)
  {
    var b := Swap(a, pos, c);
    forall p, d {:trigger Child(p, d)} | Child(p, d) && d < |b| && p != c
      ensures !Less(b[d], b[p])
    {
      if d == pos {
        assert Child(p, pos) && Child(pos, c);
      } else if p == pos {
        assert Child(pos, d);
      }
    }
    forall p, d {:trigger Child(p, c), Child(c, d)} | Child(p, c) && Child(c, d) && d < |b|
      ensures !Less(b[d], b[p])
    {
      assert p == pos;
    }
  }

  lemma SinkingEnd(a: seq<Item>, pos: nat)
    requires Sinking(a, pos)
    requires forall d {:trigger Child(pos, d)} :: Child(pos, d) && d < |a| ==> !Less(a[d], a[pos])
    ensures Heap(a)
  {
    forall p, c {:trigger Child(p, c)} | Child(p, c) && c < |a|
      ensures !Less(a[c], a[p])
    {
    }
  }

  /** pq_sift's choice of child: the smaller of the two, when both exist. */
  method SmallerChild(items: array<Item>, j: nat, end: nat) returns (child: nat)
    requires 2 * j + 1 < end <= items.Length
    ensures Child(j, child) && child < end
    ensures forall d {:trigger Child(j, d)} :: Child(j, d) && d < end ==> !Less(items[d], items[child])
  {
    if 2 * j + 2 < end && Less(items[2 * j + 2], items[2 * j + 1]) {
      child := 2 * j + 2;
    } else {
      child := 2 * j + 1;
    }
  }

  /** pq_sift: the item at the top sinks to its place. */
  method PqSift(items: array<Item>, end: nat)
    requires 0 < items.Length && end <= items.Length
    requires end == 0 || Sinking(items[..end], 0)
    modifies items
    ensures Heap(items[..end])
    ensures multiset(items[..end]) == multiset(old(items[..end]))
  {
    if end == 0 {
      return;
    }
    ghost var a := items[..end];
    var moved := items[0];
    var j := 0;
    while 2 * j + 1 < end
      invariant j < end && |a| == end && a[j] == moved && multiset(a) == multiset(old(items[..end]))
      invariant Sinking(a, j)
      invariant forall i :: 0 <= i < end && i != j ==> items[i] == a[i]
      decreases end - j
    {
      var child := SmallerChild(items, j, end);
      if Less(items[child], moved) {
        SinkingStep(a, j, child);
        a := Swap(a, j, child);
        items[j] := items[child];
        j := child;
      } else {
        break;
      }
    }
    items[j] := moved;
    SinkingEnd(a, j);
    assert items[..end] == a;
  }

  /** pq_pop: the last item replaces the top and sinks. */
  method PqPop(items: array<Item>, count: nat)
    requires 0 < count <= items.Length
    requires Heap(items[..count])
    modifies items
    ensures Heap(items[..count - 1])
    ensures multiset(old(items[..count])) == multiset(items[..count - 1]) + multiset{old(items[0])}
  {
    hide *;
    ghost var before := items[..count];
    var end := count - 1;
    items[0] := items[end];
    SinkingStart(before, items[..end]);
    PqSift(items, end);
  }
}
