/** The singly linked list on the heap: the walks with a previous and a current pointer. */
module LinkedList {
  import opened ByteStrings

  class Node<T> {
    const data: T
    var next: Node?<T>
    ghost const home: object

    /** home is the list that the node is made for: no node moves to another list. */
    constructor (data: T, next: Node?<T>, ghost home: object)
      ensures this.data == data && this.next == next && this.home == home
    {
      this.data := data;
      this.next := next;
      this.home := home;
    }
  }

  ghost function DataOf<T>(spine: seq<Node<T>>): seq<T> {
    seq(|spine|, i requires 0 <= i < |spine| => spine[i].data)
  }

  lemma DataCut<T>(spine: seq<Node<T>>, k: nat)
    requires k < |spine|
    ensures DataOf(spine[..k] + spine[k + 1..]) == DataOf(spine)[..k] + DataOf(spine)[k + 1..]
  {
  }

  /** Where the comparison first answers 0, or the length when it never does. */
  ghost function FirstMatch<T>(s: seq<T>, compare: (T, T) -> int, probe: T): (k: nat)
    ensures k <= |s| && (forall i :: 0 <= i < k ==> compare(s[i], probe) != 0)
    ensures k < |s| ==> compare(s[k], probe) == 0
  {
    if s == [] || compare(s[0], probe) == 0 then 0 else 1 + FirstMatch(s[1..], compare, probe)
  }

  lemma FirstMatchIs<T>(s: seq<T>, compare: (T, T) -> int, probe: T, k: nat)
    requires k <= |s| && (forall i :: 0 <= i < k ==> compare(s[i], probe) != 0)
    requires k < |s| ==> compare(s[k], probe) == 0
    ensures FirstMatch(s, compare, probe) == k
  {
  }

  datatype Status = SUCCESS | NOT_EXISTS | OUT_OF_BOUNDS

  class Sll<T> {
    var head: Node?<T>
    var len: nat
    const compare: (T, T) -> int
    ghost var spine: seq<Node<T>>

    /** The nodes from the head on are those of spine, each once. */
    ghost predicate Valid()
      reads this, spine
    {
      && (forall i, j :: 0 <= i < j < |spine| ==> spine[i] != spine[j])
      && (forall i :: 0 <= i < |spine| ==> spine[i].home == this)
      && head == (if spine == [] then null else spine[0])
      && (forall i, j :: 0 <= i < |spine| && j == i + 1 < |spine| ==> spine[i].next == spine[j])
      && (spine != [] ==> spine[|spine| - 1].next == null)
      && len == |spine|
    }

    ghost function Contents(): seq<T>
      reads this
    {
      DataOf(spine)
    }

    constructor (compare: (T, T) -> int)
      ensures Valid() && spine == [] && this.compare == compare
    {
      this.compare := compare;
      head, len, spine := null, 0, [];
    }

    /** sll_get: the first node that the comparison accepts. */
    method Get(probe: T) returns (node: Node?<T>)
      requires Valid()
      ensures var k := FirstMatch(Contents(), compare, probe);
              node == if k < |spine| then spine[k] else null
    {
      node := head;
      ghost var k := 0;
      while node != null && compare(node.data, probe) != 0
        invariant 0 <= k <= |spine|
        invariant node == if k < |spine| then spine[k] else null
        invariant forall i :: 0 <= i < k ==> compare(spine[i].data, probe) != 0
        decreases |spine| - k
      {
        node := node.next;
        k := k + 1;
      }
      FirstMatchIs(Contents(), compare, probe, k);
    }

    /** sll_insert: a new node before position idx. */
    method Insert(data: T, idx: nat) returns (status: Status)
      requires Valid()
      modifies this, spine
      ensures Valid()
      ensures status == OUT_OF_BOUNDS <==> idx > old(len)
      ensures status == OUT_OF_BOUNDS ==> spine == old(spine)
      ensures status != OUT_OF_BOUNDS ==>
                && status == SUCCESS && idx < |spine| && fresh(spine[idx]) && spine[idx].data == data
                && spine == old(spine)[..idx] + [spine[idx]] + old(spine)[idx..]
    {
      if idx > len {
        return OUT_OF_BOUNDS;
      }
      var prev: Node?<T> := null;
      var cur := head;
      var left := idx;
      while 0 < left
        invariant 0 <= left <= idx
        invariant cur == if idx - left < |spine| then spine[idx - left] else null
        invariant prev == if left < idx then spine[idx - left - 1] else null
      {
        prev := cur;
        cur := cur.next;
        left := left - 1;
      }
      var node := new Node(data, null, this);
      if prev == null {
        head := node;
      } else {
        prev.next := node;
      }
      node.next := cur;
      len := len + 1;
      spine := spine[..idx] + [node] + spine[idx..];
      status := SUCCESS;
    }

    /** sll_append. */
    method Append(data: T) returns (status: Status)
      requires Valid()
      modifies this, spine
      ensures Valid() && status == SUCCESS
      ensures |spine| == |old(spine)| + 1 && fresh(spine[|old(spine)|])
      ensures spine == old(spine) + [spine[|old(spine)|]]
      ensures Contents() == old(Contents()) + [data]
    {
      status := Insert(data, len);
    }

    /** sll_remove: the first node that the comparison accepts leaves the list, all others stay. */
    method Remove(probe: T) returns (status: Status)
      requires Valid()
      modifies this, spine
      ensures Valid()
      ensures var k := FirstMatch(old(Contents()), compare, probe);
              if k == |old(spine)| then status == NOT_EXISTS && spine == old(spine)
              else status == SUCCESS && spine == old(spine)[..k] + old(spine)[k + 1..]
                   && Contents() == old(Contents())[..k] + old(Contents())[k + 1..]
    {
      var prev: Node?<T> := null;
      var cur := head;
      ghost var k := 0;
      while cur != null && compare(cur.data, probe) != 0
        invariant 0 <= k <= |spine|
        invariant cur == if k < |spine| then spine[k] else null
        invariant prev == if 0 < k then spine[k - 1] else null
        invariant forall i :: 0 <= i < k ==> compare(spine[i].data, probe) != 0
        decreases |spine| - k
      {
        prev := cur;
        cur := cur.next;
        k := k + 1;
      }
      FirstMatchIs(Contents(), compare, probe, k);
      if cur == null {
        return NOT_EXISTS;
      }
      DataCut(spine, k);
      Unlink(k, prev, cur);
      status := SUCCESS;
    }

    /** Take the node at k out, given the one before it. */
    method Unlink(ghost k: nat, prev: Node?<T>, cur: Node<T>)
      requires Valid() && k < |spine| && cur == spine[k] && prev == if 0 < k then spine[k - 1] else null
      modifies this, spine
      ensures Valid() && spine == old(spine)[..k] + old(spine)[k + 1..]
    {
      if prev == null {
        head := cur.next;
      } else {
        prev.next := cur.next;
      }
      len := len - 1;
      spine := spine[..k] + spine[k + 1..];
    }

    /** sll_foreach: the function sees the elements in list order, up to and including the first that
        it answers with a failure (any status but 0). */
    method Foreach(f: T -> nat) returns (status: nat, visited: seq<T>)
      requires Valid()
      ensures visited <= Contents() && forall i :: 0 <= i < |visited| - 1 ==> f(visited[i]) == 0
      ensures status == 0 ==> visited == Contents() && forall i :: 0 <= i < |visited| ==> f(visited[i]) == 0
      ensures status != 0 ==> visited != [] && f(visited[|visited| - 1]) == status
    {
      visited := [];
      status := 0;
      var cur := head;
      while cur != null && status == 0
        invariant |visited| <= |spine| && visited == Contents()[..|visited|]
        invariant cur == if |visited| < |spine| then spine[|visited|] else null
        invariant forall i :: 0 <= i < |visited| - 1 ==> f(visited[i]) == 0
        invariant status == 0 ==> forall i :: 0 <= i < |visited| ==> f(visited[i]) == 0
        invariant status != 0 ==> visited != [] && f(visited[|visited| - 1]) == status
        decreases |spine| - |visited|
      {
        var next := cur.next;
        status := f(cur.data);
        visited := visited + [cur.data];
        cur := next;
      }
    }
  }
}
