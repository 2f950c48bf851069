/**
 * The game's intrusive list (`SC4List<T>`): a circular doubly-linked list threaded
 * through a sentinel `root` node, with a forward iterator, a size computed by
 * traversal and a teardown that hands every node back to the host's allocator.
 */
module ListContainer {
  import opened Base

  /**
   * How a list disposes of its values in teardown. The source picks this at compile
   * time: `RefCounted` when the value type derives from `cIGZUnknown`, `Owned` otherwise.
   */
  datatype Ownership = RefCounted | Owned

  /** One disposal performed in teardown: a `Release()` call or a destructor call. */
  datatype Disposal<T> = Released(value: T) | Destroyed(value: T)

  function Dispose<T>(kind: Ownership, v: T): Disposal<T>
  {
    if kind == RefCounted then Released(v) else Destroyed(v)
  }

  /** The non-null values in `vs`, in order. */
  function NonNull<T>(vs: seq<Option<T>>): seq<T>
  {
    if vs == [] then []
    else NonNull(vs[..|vs| - 1]) + (if vs[|vs| - 1].Some? then [vs[|vs| - 1].value] else [])
  }

  /** The disposals teardown performs for node values `vs`, node by node; null values are skipped. */
  function Disposals<T>(kind: Ownership, vs: seq<Option<T>>): seq<Disposal<T>>
  {
    if vs == [] then []
    else
      var v := vs[|vs| - 1];
      Disposals(kind, vs[..|vs| - 1]) + (if v.Some? then [Dispose(kind, v.value)] else [])
  }

  /** Teardown disposes of each non-null value exactly once, in list order. */
  lemma {:induction false} DisposalsOfNonNull<T>(kind: Ownership, vs: seq<Option<T>>)
    ensures |Disposals(kind, vs)| == |NonNull(vs)|
    ensures forall i :: 0 <= i < |NonNull(vs)| ==> Disposals(kind, vs)[i] == Dispose(kind, NonNull(vs)[i])
  {
    if vs != [] {
      DisposalsOfNonNull(kind, vs[..|vs| - 1]);
    }
  }

  /** The objects of `s`, as a set. */
  ghost function Elements(s: seq<object>): set<object>
  {
    if s == [] then {} else Elements(s[..|s| - 1]) + {s[|s| - 1]}
  }

  /** The host allocator service; `freed` records every block handed back with `Deallocate`. */
  class AllocatorService {
    ghost var freed: set<object>

    constructor()
      ensures freed == {}
    {
      freed := {};
    }

    method Deallocate(block: object)
      modifies this
      ensures freed == old(freed) + {block}
    {
      freed := freed + {block};
    }
  }

  /** `SC4ListNode<T>`: links to the neighbours and a possibly-null pointer to the value. */
  class ListNode<T> {
    var next: ListNode?<T>
    var previous: ListNode?<T>
    const value: Option<T>

    constructor(value: Option<T>, previous: ListNode?<T>, next: ListNode?<T>)
      ensures this.value == value && this.previous == previous && this.next == next
    {
      this.value := value;
      this.previous := previous;
      this.next := next;
    }
  }

  /** `SC4ListIterator<T>`: a forward iterator holding the node it stands on. */
  class ListIterator<T> {
    var node: ListNode<T>

    constructor(node: ListNode<T>)
      ensures this.node == node
    {
      this.node := node;
    }

    /** `operator*`: the value of the current node, which must not be null. */
    function Deref(): T
      reads this, node
      requires node.value.Some?
    {
      node.value.value
    }

    /** `operator->`: the value pointer of the current node. */
    function Pointer(): Option<T>
      reads this, node
    {
      node.value
    }

    /** Prefix `operator++`: move to the next node. */
    method Increment()
      requires node.next != null
      modifies this
      ensures node == old(node.next)
    {
      node := node.next;
    }

    /** Postfix `operator++`: move to the next node and return a copy standing where this one stood. */
    method PostIncrement() returns (prior: ListIterator<T>)
      requires node.next != null
      modifies this
      ensures fresh(prior) && prior.node == old(node)
      ensures node == old(node.next)
    {
      prior := new ListIterator(node);
      Increment();
    }

    /** `operator==`: two iterators are equal exactly when they stand on the same node. */
    function Equals(other: ListIterator<T>): bool
      reads this, other
    {
      node == other.node
    }

    /** `operator!=`: the negation of `Equals`. */
    function NotEquals(other: ListIterator<T>): (r: bool)
      reads this, other
      ensures r <==> !Equals(other)
    {
      node != other.node
    }
  }

  /** `SC4List<T>`: the sentinel `root` and, as ghost state, the nodes it links in order. */
  class SC4List<T> {
    const kind: Ownership
    const root: ListNode<T>

    /** The non-sentinel nodes, in `next` order from `root.next`. */
    ghost var nodes: seq<ListNode<T>>
    /** The value pointers of `nodes`, in the same order. */
    ghost var Contents: seq<Option<T>>
    ghost var Repr: set<object>

    /** The node at position `k`; positions -1 and |nodes| are both the sentinel. */
    ghost function At(k: int): ListNode<T>
      reads this
    {
      if 0 <= k < |nodes| then nodes[k] else root
    }

    ghost function NodeSet(): set<object>
      reads this
    {
      Elements(nodes)
    }

    /** The list invariant: a cycle through `root` and every node, with matching back links. */
    ghost predicate Valid()
      reads this, Repr
    {
      this in Repr && root in Repr &&
      Repr == {this, root as object} + NodeSet() &&
      (forall i :: 0 <= i < |nodes| ==> nodes[i] in Repr) &&
      root !in nodes &&
      (forall i, j :: 0 <= i < j < |nodes| ==> nodes[i] != nodes[j]) &&
      |Contents| == |nodes| &&
      root.next == At(0) && root.previous == At(|nodes| - 1) &&
      (forall i {:trigger nodes[i].next} :: 0 <= i < |nodes| ==> nodes[i].next == At(i + 1)) &&
      (forall i {:trigger nodes[i].previous} :: 0 <= i < |nodes| ==> nodes[i].previous == At(i - 1)) &&
      (forall i :: 0 <= i < |nodes| ==> nodes[i].value == Contents[i])
    }

    /** A new list: the sentinel links to itself in both directions. */
    constructor(kind: Ownership)
      ensures Valid() && fresh(Repr)
      ensures this.kind == kind && Contents == []
      ensures root.next == root && root.previous == root
    {
      this.kind := kind;
      var r := new ListNode<T>(None, null, null);
      root := r;
      nodes := [];
      Contents := [];
      Repr := {this, r};
      new;
      root.next := root;
      root.previous := root;
    }

    /** `empty()`: the sentinel's successor is the sentinel itself. */
    function IsEmpty(): (r: bool)
      requires Valid()
      reads Repr
      ensures r <==> Contents == []
    {
      root.next == root
    }

    /** Distinct positions hold distinct nodes, so iterator equality compares positions. */
    lemma PositionsDistinct(i: int, j: int)
      requires Valid()
      requires 0 <= i <= |nodes| && 0 <= j <= |nodes|
      ensures At(i) == At(j) <==> i == j
    {
    }

    /** `size()`: counts the nodes met walking `next` from `root.next` back to `root`. */
    method Size() returns (n: nat)
      requires Valid()
      ensures n == |Contents|
    {
      n := 0;
      var entry := root.next;
      while entry != root
        invariant n <= |nodes| && entry == At(n)
        decreases |nodes| - n
      {
        var nextEntry := entry.next;
        n := n + 1;
        entry := nextEntry;
      }
    }

    /** `begin()`: an iterator on the first node (on `root` when the list is empty). */
    method Begin() returns (it: ListIterator<T>)
      requires Valid()
      ensures fresh(it) && it.node == At(0)
    {
      it := new ListIterator(root.next);
    }

    /** `end()`: an iterator on the sentinel. */
    method End() returns (it: ListIterator<T>)
      requires Valid()
      ensures fresh(it) && it.node == root
    {
      it := new ListIterator(root);
    }

    /**
     * A range-based `for` over the list: from `begin()`, `++` until equal to `end()`.
     * It meets the values in list order and stops after exactly |Contents| steps.
     */
    method Traverse() returns (visited: seq<Option<T>>, steps: nat)
      requires Valid()
      ensures visited == Contents && steps == |Contents|
    {
      var it := Begin();
      var last := End();
      visited, steps := [], 0;
      while it.NotEquals(last)
        modifies it
        invariant steps <= |nodes| && it.node == At(steps)
        invariant visited == Contents[..steps]
        decreases |nodes| - steps
      {
        visited := visited + [it.Pointer()];
        it.Increment();
        steps := steps + 1;
      }
    }

    /**
     * A node linked in between the final node `last` (or `root`, for an empty `ns`)
     * and `root` extends a valid cycle through `ns` to one through `ns + [node]`.
     */
    lemma AppendedValid(ns: seq<ListNode<T>>, cs: seq<Option<T>>, last: ListNode<T>, node: ListNode<T>)
      requires root !in ns && node !in ns && node != root
      requires forall i, j :: 0 <= i < j < |ns| ==> ns[i] != ns[j]
      requires last == (if |ns| == 0 then root else ns[|ns| - 1])
      requires root.next == (if |ns| == 0 then node else ns[0])
      requires forall i :: 0 <= i < |ns| - 1 ==> ns[i].next == ns[i + 1]
      requires forall i :: 0 < i < |ns| ==> ns[i].previous == ns[i - 1]
      requires |ns| > 0 ==> ns[0].previous == root
      requires last.next == node && root.previous == node
      requires node.next == root && node.previous == last
      requires |cs| == |ns| && forall i :: 0 <= i < |ns| ==> ns[i].value == cs[i]
      requires nodes == ns + [node] && Contents == cs + [node.value]
      requires Repr == {this, root as object} + Elements(ns) + {node}
      requires forall i :: 0 <= i < |ns| ==> ns[i] in Repr
      ensures Valid()
    {
      assert (ns + [node])[..|ns|] == ns;
      assert Elements(nodes) == Elements(ns) + {node};
      assert forall i :: 0 <= i < |ns| ==> nodes[i] == ns[i];
      forall i | 0 <= i < |nodes| ensures nodes[i].next == At(i + 1) {
        if i == |ns| - 1 {
          assert nodes[i] == last;
        }
      }
      forall i | 0 <= i < |nodes| ensures nodes[i].previous == At(i - 1) {
      }
      forall i | 0 <= i < |nodes| ensures nodes[i].value == Contents[i] {
        if i == |ns| {
          assert nodes[i] == node;
        }
      }
    }

    /**
     * How the game fills a list it hands out: a new node linked in before the sentinel.
     * SC4List.h has no insertion operation; this stands for the host's own code.
     */
    method PushBack(v: Option<T>)
      requires Valid()
      modifies Repr
      ensures Valid() && fresh(Repr - old(Repr))
      ensures Contents == old(Contents) + [v]
    {
      ghost var ns, cs := nodes, Contents;
      var last := root.previous;
      assert forall i :: 0 <= i < |ns| - 1 ==> ns[i].next == ns[i + 1] && ns[i] != last;
      assert forall i :: 0 < i < |ns| ==> ns[i].previous == ns[i - 1];
      var node := new ListNode(v, last, root);
      last.next := node;
      root.previous := node;
      nodes := ns + [node];
      Contents := cs + [v];
      Repr := Repr + {node};
      AppendedValid(ns, cs, last, node);
    }

    /**
     * The destructor: every node is visited once, its non-null value released or
     * destroyed according to `kind`, and the node deallocated; then the sentinel links
     * to itself again.
     */
    method Destroy(allocator: AllocatorService) returns (disposals: seq<Disposal<T>>)
      requires Valid()
      modifies Repr, allocator
      ensures Valid() && Repr == {this, root} && Contents == []
      ensures root.next == root && root.previous == root
      ensures disposals == Disposals(kind, old(Contents))
      ensures allocator.freed == old(allocator.freed) + old(NodeSet())
    {
      var entry := root.next;
      ghost var k := 0;
      disposals := [];
      while entry != root
        modifies allocator
        invariant k <= |nodes| && entry == At(k)
        invariant disposals == Disposals(kind, Contents[..k])
        invariant allocator.freed == old(allocator.freed) + Elements(nodes[..k])
        decreases |nodes| - k
      {
        var nextEntry := entry.next;
        var v := entry.value;
        assert Contents[..k + 1][..k] == Contents[..k];
        if v.Some? {
          disposals := disposals + [Dispose(kind, v.value)];
        }
        allocator.Deallocate(entry);
        assert nodes[..k + 1][..k] == nodes[..k];
        entry := nextEntry;
        k := k + 1;
      }
      assert Contents[..k] == Contents;
      assert nodes[..k] == nodes;
      root.next := root;
      root.previous := root;
      nodes := [];
      Contents := [];
      Repr := {this, root};
    }
  }

  /** Iterators on positions `i` and `j` of a valid list (`|nodes|` is `end()`) compare equal exactly when `i == j`. */
  lemma IteratorsEqualAtPositions<T>(l: SC4List<T>, a: ListIterator<T>, b: ListIterator<T>, i: int, j: int)
    requires l.Valid()
    requires 0 <= i <= |l.nodes| && 0 <= j <= |l.nodes|
    requires a.node == l.At(i) && b.node == l.At(j)
    ensures a.Equals(b) <==> i == j
  {
    l.PositionsDistinct(i, j);
  }
}
