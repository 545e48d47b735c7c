/** The binary search tree on the heap, with deletion by relinking the in-order successor.

    A pointer to a link (node_t **) is either the root field or one child field of a node. The tree
    that hangs from a pointer is described by a ghost shape; the way from the root down to a link by
    a ghost context, which is a shape with a hole. */
module BinarySearchTree {
  import opened ByteStrings

  class Node {
    const data: Bytes
    var left: Node?
    var right: Node?

    constructor (data: Bytes)
      ensures this.data == data && left == null && right == null
    {
      this.data := data;
      left, right := null, null;
    }
  }

  datatype Shape = Leaf | Fork(left: Shape, node: Node, right: Shape)

  datatype Context = Top | LeftOf(up: Context, node: Node, right: Shape) | RightOf(left: Shape, node: Node, up: Context)

  ghost function Nodes(t: Shape): set<Node> {
    match t
    case Leaf => {}
    case Fork(l, n, r) => Nodes(l) + {n} + Nodes(r)
  }

  ghost function Inorder(t: Shape): seq<Node> {
    match t
    case Leaf => []
    case Fork(l, n, r) => Inorder(l) + [n] + Inorder(r)
  }

  ghost function ContextNodes(c: Context): set<Node> {
    match c
    case Top => {}
    case LeftOf(up, n, r) => ContextNodes(up) + {n} + Nodes(r)
    case RightOf(l, n, up) => Nodes(l) + {n} + ContextNodes(up)
  }

  /** Fill the hole. */
  ghost function Plug(c: Context, t: Shape): Shape {
    match c
    case Top => t
    case LeftOf(up, n, r) => Plug(up, Fork(t, n, r))
    case RightOf(l, n, up) => Plug(up, Fork(l, n, t))
  }

  ghost function Before(c: Context): seq<Node> {
    match c
    case Top => []
    case LeftOf(up, _, _) => Before(up)
    case RightOf(l, n, up) => Before(up) + Inorder(l) + [n]
  }

  ghost function After(c: Context): seq<Node> {
    match c
    case Top => []
    case LeftOf(up, n, r) => [n] + Inorder(r) + After(up)
    case RightOf(_, _, up) => After(up)
  }

  /** The heap tree hanging from p has shape t, every node in it occurring once. */
  ghost predicate Rep(p: Node?, t: Shape)
    reads Nodes(t)
  {
    match t
    case Leaf => p == null
    case Fork(l, n, r) =>
      && p == n && n !in Nodes(l) && n !in Nodes(r) && Nodes(l) !! Nodes(r)
      && Rep(n.left, l) && Rep(n.right, r)
  }

  /** From p, the links lead along context c to a hole that holds h. */
  ghost predicate RepContext(p: Node?, c: Context, h: Node?)
    reads ContextNodes(c)
  {
    match c
    case Top => p == h
    case LeftOf(up, n, r) =>
      && RepContext(p, up, n) && n.left == h && Rep(n.right, r)
      && n !in ContextNodes(up) && n !in Nodes(r) && ContextNodes(up) !! Nodes(r)
    case RightOf(l, n, up) =>
      && RepContext(p, up, n) && n.right == h && Rep(n.left, l)
      && n !in ContextNodes(up) && n !in Nodes(l) && ContextNodes(up) !! Nodes(l)
  }

  ghost predicate Ascending(s: seq<Node>) {
    forall i, j :: 0 <= i < j < |s| ==> Less(s[i].data, s[j].data)
  }

  lemma Regroup(a: seq<Node>, b: seq<Node>, n: Node, c: seq<Node>, d: seq<Node>)
    ensures a + (b + [n] + c) + d == a + b + ([n] + c + d)
    ensures a + (b + [n] + c) + d == (a + b + [n]) + c + d
  {
  }

  lemma {:induction false} InorderPlug(c: Context, t: Shape)
    ensures Inorder(Plug(c, t)) == Before(c) + Inorder(t) + After(c)
  {
    match c
    case Top =>
    case LeftOf(up, n, r) =>
      InorderPlug(up, Fork(t, n, r));
      Regroup(Before(up), Inorder(t), n, Inorder(r), After(up));
    case RightOf(l, n, up) =>
      InorderPlug(up, Fork(l, n, t));
      Regroup(Before(up), Inorder(l), n, Inorder(t), After(up));
  }

  lemma {:induction false} NodesPlug(c: Context, t: Shape)
    ensures Nodes(Plug(c, t)) == ContextNodes(c) + Nodes(t)
  {
    match c
    case Top =>
    case LeftOf(up, n, r) => NodesPlug(up, Fork(t, n, r));
    case RightOf(l, n, up) => NodesPlug(up, Fork(l, n, t));
  }

  lemma {:induction false} InorderNodes(t: Shape)
    ensures forall n :: n in Inorder(t) <==> n in Nodes(t)
  {
    if t.Fork? {
      InorderNodes(t.left);
      InorderNodes(t.right);
    }
  }

  /** A tree plugged into a hole that holds it is a tree again. */
  lemma {:induction false} Assemble(p: Node?, c: Context, h: Node?, t: Shape)
    requires RepContext(p, c, h) && Rep(h, t) && ContextNodes(c) !! Nodes(t)
    ensures Rep(p, Plug(c, t))
  {
    match c
    case Top =>
    case LeftOf(up, n, r) => Assemble(p, up, n, Fork(t, n, r));
    case RightOf(l, n, up) => Assemble(p, up, n, Fork(l, n, t));
  }

  /** node_t **: where a pointer to a node is stored. */
  datatype Link = Root | LeftLink(parent: Node) | RightLink(parent: Node)

  ghost function LinkOf(c: Context): Link {
    match c
    case Top => Root
    case LeftOf(_, n, _) => LeftLink(n)
    case RightOf(_, n, _) => RightLink(n)
  }

  /** Everything before the hole is smaller than key and everything after it larger. */
  ghost predicate Around(c: Context, key: Bytes) {
    && (forall n :: n in Before(c) ==> Less(n.data, key))
    && (forall n :: n in After(c) ==> Less(key, n.data))
  }

  datatype Status = SUCCESS | EXISTS | NOT_EXISTS

  class Tree {
    var root: Node?
    var len: nat
    ghost var shape: Shape
    ghost var repr: set<Node>

    ghost predicate Valid()
      reads this, repr
    {
      repr == Nodes(shape) && Rep(root, shape) && Ascending(Inorder(shape)) && len == |Inorder(shape)|
    }

    /** The nodes of the tree in key order. */
    ghost function Contents(): seq<Node>
      reads this
    {
      Inorder(shape)
    }

    constructor ()
      ensures Valid() && Contents() == []
    {
      root, len, shape, repr := null, 0, Leaf, {};
    }

    function Deref(link: Link): Node?
      reads this, if link.Root? then {} else {link.parent}
    {
      match link
      case Root => root
      case LeftLink(p) => p.left
      case RightLink(p) => p.right
    }

    /** get_link: the link that holds, or would hold, the node with this key. */
    method GetLink(key: Bytes) returns (link: Link, ghost c: Context, ghost t: Shape)
      requires Valid()
      ensures shape == Plug(c, t) && link == LinkOf(c)
      ensures RepContext(root, c, Deref(link)) && Rep(Deref(link), t) && ContextNodes(c) !! Nodes(t)
      ensures Around(c, key)
      ensures t.Fork? ==> t.node.data == key
      ensures Deref(link) == null ==> forall m :: m in Contents() ==> m.data != key
      ensures Deref(link) != null ==> Deref(link) in Contents() && Deref(link).data == key
    {
      link, c, t := Root, Top, shape;
      var cur := root;
      while cur != null && Compare(key, cur.data) != 0
        invariant shape == Plug(c, t) && link == LinkOf(c) && cur == Deref(link)
        invariant RepContext(root, c, cur) && Rep(cur, t) && ContextNodes(c) !! Nodes(t)
        invariant Around(c, key)
        decreases t
      {
        CompareZero(key, cur.data);
        StepAround(c, t, key);
        if 0 > Compare(key, cur.data) {
          link, c, t := LeftLink(cur), LeftOf(c, cur, t.right), t.left;
          cur := cur.left;
        } else {
          link, c, t := RightLink(cur), RightOf(t.left, cur, c), t.right;
          cur := cur.right;
        }
      }
      if cur == null {
        NotThere(c, t, key);
      } else {
        CompareZero(key, cur.data);
        InorderPlug(c, t);
      }
    }

    /** bst_get. */
    method Get(key: Bytes) returns (n: Node?)
      requires Valid()
      ensures n != null ==> n in Contents() && n.data == key
      ensures n == null ==> forall m :: m in Contents() ==> m.data != key
    {
      ghost var c, t;
      var link;
      link, c, t := GetLink(key);
      n := Deref(link);
    }

    /** Write p into the link at the hole of c, where a tree of shape t now hangs from p. */
    method Relink(link: Link, ghost c: Context, p: Node?, ghost t: Shape)
      requires link == LinkOf(c) && RepContext(root, c, Deref(link)) && Rep(p, t) && ContextNodes(c) !! Nodes(t)
      modifies this, ContextNodes(c)
      ensures Rep(root, Plug(c, t)) && len == old(len) && shape == old(shape) && repr == old(repr)
    {
      match link {
        case Root =>
          root := p;
        case LeftLink(q) =>
          assert q == c.node && q !in ContextNodes(c.up);
          q.left := p;
          assert Rep(p, t) && RepContext(root, c.up, q) && Rep(q.right, c.right);
        case RightLink(q) =>
          assert q == c.node && q !in ContextNodes(c.up);
          q.right := p;
          assert Rep(p, t) && RepContext(root, c.up, q) && Rep(q.left, c.left);
      }
      Assemble(root, c, p, t);
    }

    /** Create a node and hang it into the empty link at the hole of c. */
    method InsertAt(link: Link, ghost c: Context, key: Bytes) returns (n: Node)
      requires Valid() && shape == Plug(c, Leaf) && link == LinkOf(c) && RepContext(root, c, null)
      requires Deref(link) == null && Around(c, key)
      modifies this, repr
      ensures Valid() && fresh(n) && n.data == key
      ensures old(Contents()) == Before(c) + After(c) && Contents() == Before(c) + [n] + After(c)
    {
      NodesPlug(c, Leaf);
      assert ContextNodes(c) <= repr;
      n := new Node(key);
      assert RepContext(root, c, null);
      Relink(link, c, n, Fork(Leaf, n, Leaf));
      InsertShape(c, n);
      shape := Plug(c, Fork(Leaf, n, Leaf));
      repr := repr + {n};
      len := len + 1;
    }

    /** bst_set: a new node goes to its place in the order, at position k; an existing key leaves all
        untouched. */
    method Set(key: Bytes) returns (status: Status, ghost k: nat)
      requires Valid()
      modifies this, repr
      ensures Valid()
      ensures status == SUCCESS || status == EXISTS
      ensures status == EXISTS <==> exists n :: n in old(Contents()) && n.data == key
      ensures status == EXISTS ==> unchanged(this) && unchanged(old(repr)) && shape == old(shape)
      ensures status == SUCCESS ==>
                && k < |Contents()| && fresh(Contents()[k]) && Contents()[k].data == key
                && Contents()[..k] + Contents()[k + 1..] == old(Contents())
    {
      ghost var c, t;
      var link;
      link, c, t := GetLink(key);
      InorderPlug(c, t);
      k := |Before(c)|;
      if Deref(link) != null {
        assert t.node in Contents();
        status := EXISTS;
      } else {
        NotThere(c, t, key);
        var n := InsertAt(link, c, key);
        assert Contents()[..k] == Before(c) && Contents()[k + 1..] == After(c);
        status := SUCCESS;
      }
    }

    /** The inner loop of bst_del: the link that holds the leftmost node below target's right child. */
    method SuccessorLink(target: Node, ghost r: Shape) returns (link: Link, ghost d: Context, ghost t: Shape)
      requires Rep(target.right, r) && r.Fork? && target !in Nodes(r)
      ensures r == Plug(d, t) && t.Fork? && t.left == Leaf && Before(d) == []
      ensures link == if d.Top? then RightLink(target) else LinkOf(d)
      ensures Deref(link) == t.node && RepContext(target.right, d, t.node) && Rep(t.node, t)
      ensures ContextNodes(d) !! Nodes(t)
      ensures Inorder(r) != [] && Deref(link) == Inorder(r)[0]
    {
      link, d, t := RightLink(target), Top, r;
      var cur := target.right;
      while cur.left != null
        invariant r == Plug(d, t) && t.Fork? && Before(d) == []
        invariant link == if d.Top? then RightLink(target) else LinkOf(d)
        invariant Deref(link) == cur && cur == t.node && RepContext(target.right, d, cur) && Rep(cur, t)
        invariant ContextNodes(d) !! Nodes(t)
        decreases t
      {
        link, d, t := LeftLink(cur), LeftOf(d, cur, t.right), t.left;
        cur := cur.left;
      }
      InorderPlug(d, t);
    }

    /** Take the successor out of its link; what was below target's right child now lacks that node.
        The link is target's own right field when the successor is its direct right child. */
    method UnlinkSuccessor(target: Node, link: Link, ghost d: Context, ghost t: Shape)
      requires target !in ContextNodes(d) && target !in Nodes(t) && ContextNodes(d) !! Nodes(t)
      requires t.Fork? && t.left == Leaf && link == if d.Top? then RightLink(target) else LinkOf(d)
      requires RepContext(target.right, d, t.node) && Rep(t.node, t)
      modifies target, ContextNodes(d)
      ensures Rep(target.right, Plug(d, t.right)) && target.left == old(target.left)
    {
      var next := Deref(link);
      var rest := next.right;
      match link {
        case Root =>
        case LeftLink(q) =>
          q.left := rest;
          assert Rep(rest, t.right) && RepContext(target.right, d.up, q) && Rep(q.right, d.right);
        case RightLink(q) =>
          q.right := rest;
          assert Rep(rest, t.right);
          if d.RightOf? {
            assert RepContext(target.right, d.up, q) && Rep(q.left, d.left);
          }
      }
      Assemble(target.right, d, rest, t.right);
    }

    /** The two-children case: the successor takes over both subtrees of target. */
    method SpliceSuccessor(target: Node, ghost t: Shape, ghost scope: set<Node>) returns (next: Node, ghost s: Shape)
      requires Rep(target, t) && t.Fork? && t.left.Fork? && t.right.Fork? && Nodes(t) <= scope
      modifies Nodes(t)
      ensures Rep(next, s) && Nodes(s) == Nodes(t) - {target} && Inorder(s) == Inorder(t.left) + Inorder(t.right)
    {
      ghost var d, u;
      var link;
      link, d, u := SuccessorLink(target, t.right);
      SuccessorOrder(t, d, u);
      SuccessorNodes(t, d, u);
      next := Deref(link);
      UnlinkSuccessor(target, link, d, u);
      assert Rep(target.left, t.left);
      Adopt(next, target, t.left, Plug(d, u.right));
      s := Fork(t.left, next, Plug(d, u.right));
    }

    /** next takes over the children of target. */
    method Adopt(next: Node, target: Node, ghost l: Shape, ghost r: Shape)
      requires Rep(target.left, l) && Rep(target.right, r)
      requires next != target && next !in Nodes(l) && next !in Nodes(r) && Nodes(l) !! Nodes(r)
      modifies next
      ensures Rep(next, Fork(l, next, r))
    {
      next.left := target.left;
      next.right := target.right;
      assert Rep(next.left, l) && Rep(next.right, r);
    }

    /** What replaces target below its link: the successor, the only child, or nothing. */
    method Replacement(target: Node, ghost t: Shape, ghost scope: set<Node>) returns (p: Node?, ghost s: Shape)
      requires Rep(target, t) && t.Fork? && Nodes(t) <= scope
      modifies Nodes(t)
      ensures Rep(p, s) && Nodes(s) == Nodes(t) - {target} && Inorder(s) == Inorder(t.left) + Inorder(t.right)
    {
      if target.left != null && target.right != null {
        p, s := SpliceSuccessor(target, t, scope);
      } else if target.left != null {
        p, s := target.left, t.left;
      } else {
        p, s := target.right, t.right;
      }
    }

    /** Remove target, which the link at the hole of c holds. */
    method DeleteAt(link: Link, ghost c: Context, ghost t: Shape, target: Node)
      requires Valid() && shape == Plug(c, t) && link == LinkOf(c) && RepContext(root, c, target)
      requires Rep(target, t) && ContextNodes(c) !! Nodes(t) && Deref(link) == target
      modifies this, repr
      ensures Valid() && len == old(len) - 1
      ensures var k := |Before(c) + Inorder(t.left)|; var a := old(Contents());
              k < |a| && a[k] == target && Contents() == a[..k] + a[k + 1..]
    {
      NodesPlug(c, t);
      DeleteFrom(link, c, t, target);
      target.left := null;
      target.right := null;
    }

    method DeleteFrom(link: Link, ghost c: Context, ghost t: Shape, target: Node)
      requires Valid() && shape == Plug(c, t) && link == LinkOf(c) && RepContext(root, c, target)
      requires Rep(target, t) && ContextNodes(c) !! Nodes(t) && Deref(link) == target
      requires repr == ContextNodes(c) + Nodes(t)
      modifies this, repr
      ensures Valid() && len == old(len) - 1 && repr == old(repr) - {target}
      ensures var k := |Before(c) + Inorder(t.left)|; var a := old(Contents());
              k < |a| && a[k] == target && Contents() == a[..k] + a[k + 1..]
    {
      assert t.Fork? && t.node == target;
      hide Rep, RepContext, Plug, Inorder, Nodes, ContextNodes, Before, After, Ascending, LinkOf;
      ghost var s := CutBelow(link, c, t, target);
      DeleteOrder(c, t, s);
      DeleteNodes(c, t, s);
      CountDown(Contents(), |Before(c) + Inorder(t.left)|, Inorder(Plug(c, s)));
      CountOff(Plug(c, s), target);
    }

    /** The decrement of len once the target is out of the tree. */
    method CountOff(ghost rest: Shape, ghost target: Node)
      requires Rep(root, rest) && Ascending(Inorder(rest)) && len == |Inorder(rest)| + 1
      requires Nodes(rest) == repr - {target}
      modifies `len, `shape, `repr
      ensures Valid() && shape == rest && len == old(len) - 1 && repr == old(repr) - {target}
    {
      len := len - 1;
      shape := rest;
      repr := repr - {target};
    }

    /** Put the replacement of target into the link that held it. */
    method CutBelow(link: Link, ghost c: Context, ghost t: Shape, target: Node) returns (ghost s: Shape)
      requires link == LinkOf(c) && RepContext(root, c, target) && t.Fork?
      requires Rep(target, t) && ContextNodes(c) !! Nodes(t) && Deref(link) == target
      requires ContextNodes(c) <= repr && Nodes(t) <= repr
      modifies this, repr
      ensures Rep(root, Plug(c, s)) && len == old(len) && shape == old(shape) && repr == old(repr)
      ensures Nodes(s) == Nodes(t) - {target} && Inorder(s) == Inorder(t.left) + Inorder(t.right)
    {
      var p;
      p, s := Replacement(target, t, repr);
      assert RepContext(root, c, target);
      Relink(link, c, p, s);
    }

    /** bst_del: exactly the node with the key leaves the order; all other node objects stay. A missing
        key changes nothing. */
    method Del(key: Bytes) returns (status: Status, ghost k: nat)
      requires Valid()
      modifies this, repr
      ensures Valid()
      ensures status == SUCCESS || status == NOT_EXISTS
      ensures status == NOT_EXISTS <==> forall n :: n in old(Contents()) ==> n.data != key
      ensures status == NOT_EXISTS ==> unchanged(this) && unchanged(old(repr)) && shape == old(shape)
      ensures status == SUCCESS ==>
                && k < |old(Contents())| && old(Contents())[k].data == key
                && Contents() == old(Contents())[..k] + old(Contents())[k + 1..]
                && len == old(len) - 1
    {
      ghost var c, t;
      var link;
      link, c, t := GetLink(key);
      k := 0;
      var target := Deref(link);
      if target == null {
        NotThere(c, t, key);
        status := NOT_EXISTS;
      } else {
        k := |Before(c) + Inorder(t.left)|;
        DeleteAt(link, c, t, target);
        assert target in old(Contents()) && target.data == key;
        status := SUCCESS;
      }
    }

    /** bst_foreach: the function sees the elements in strictly ascending order, each once, up to and
        including the first that it answers with a failure (any status but 0). */
    method Foreach(f: Bytes -> nat) returns (status: nat, visited: seq<Node>)
      requires Valid()
      ensures Ascending(visited) && Visits(Contents(), f, status, visited)
    {
      status, visited := SubtreeForeach(root, f, shape, repr);
      PrefixAscending(Contents(), visited);
    }

    static method SubtreeForeach(n: Node?, f: Bytes -> nat, ghost t: Shape, ghost scope: set<Node>)
      returns (status: nat, visited: seq<Node>)
      requires Rep(n, t) && Nodes(t) <= scope
      ensures Visits(Inorder(t), f, status, visited)
      decreases t
    {
      visited := [];
      status := 0;
      if n != null {
        status, visited := SubtreeForeach(n.left, f, t.left, scope);
        assert Rep(n.right, t.right);
        if status == 0 {
          status := f(n.data);
          visited := visited + [n];
          if status == 0 {
            var rest;
            status, rest := SubtreeForeach(n.right, f, t.right, scope);
            visited := visited + rest;
          }
        }
      }
    }

    /** subtree_destroy: every node of the subtree is freed, children before their parent, once. */
    static method SubtreeDestroy(n: Node?, ghost t: Shape, ghost scope: set<Node>) returns (freed: seq<Node>)
      requires Rep(n, t) && Nodes(t) <= scope
      modifies Nodes(t)
      ensures forall m :: m in freed <==> m in Nodes(t)
      ensures |freed| == |Inorder(t)| && forall i, j :: 0 <= i < j < |freed| ==> freed[i] != freed[j]
      decreases t
    {
      freed := [];
      if n != null {
        var l := SubtreeDestroy(n.left, t.left, scope);
        assert Rep(n.right, t.right);
        var r := SubtreeDestroy(n.right, t.right, scope);
        n.left := null;
        n.right := null;
        FreedOnce(l, r, n, t);
        freed := l + r + [n];
      }
    }
  }

  lemma NotThere(c: Context, t: Shape, key: Bytes)
    requires t.Leaf? && Around(c, key)
    ensures forall n :: n in Inorder(Plug(c, t)) ==> n.data != key
  {
    CompareZero(key, key);
    InorderPlug(c, t);
    assert Inorder(Plug(c, t)) == Before(c) + After(c);
  }

  lemma CutOut(a: seq<Node>, b: seq<Node>, n: Node, c: seq<Node>, d: seq<Node>, e: seq<Node>)
    requires e == b + c
    ensures var whole := a + (b + [n] + c) + d; var k := |a + b|;
            && k < |whole| && whole[k] == n && a + e + d == whole[..k] + whole[k + 1..]
            && whole == (a + b) + [n] + (c + d) && a + e + d == (a + b) + (c + d)
  {
  }

  /** visited is how far a walk over all gets with f: all of it when every answer is 0, otherwise up to
      the first other answer, which is then the status. */
  ghost predicate Visits(all: seq<Node>, f: Bytes -> nat, status: nat, visited: seq<Node>) {
    && visited <= all
    && (forall i :: 0 <= i < |visited| - 1 ==> f(visited[i].data) == 0)
    && (status == 0 ==> visited == all && (visited != [] ==> f(visited[|visited| - 1].data) == 0))
    && (status != 0 ==> visited != [] && f(visited[|visited| - 1].data) == status)
  }

  lemma FreedOnce(l: seq<Node>, r: seq<Node>, n: Node, t: Shape)
    requires t.Fork? && n == t.node && n !in Nodes(t.left) && n !in Nodes(t.right) && Nodes(t.left) !! Nodes(t.right)
    requires (forall m :: m in l <==> m in Nodes(t.left)) && (forall m :: m in r <==> m in Nodes(t.right))
    requires forall i, j :: 0 <= i < j < |l| ==> l[i] != l[j]
    requires forall i, j :: 0 <= i < j < |r| ==> r[i] != r[j]
    ensures var all := l + r + [n];
            && (forall m :: m in all <==> m in Nodes(t))
            && (forall i, j :: 0 <= i < j < |all| ==> all[i] != all[j])
  {
    var all := l + r + [n];
    forall i, j | 0 <= i < j < |all|
      ensures all[i] != all[j]
    {
      if i < |l| {
        assert all[i] == l[i] && l[i] in l;
        if |l| <= j < |l| + |r| {
          assert all[j] == r[j - |l|] && r[j - |l|] in r;
        }
      } else {
        assert all[i] == r[i - |l|] && r[i - |l|] in r;
        if j < |l| + |r| {
          assert all[j] == r[j - |l|];
        }
      }
    }
  }

  lemma PrefixAscending(all: seq<Node>, visited: seq<Node>)
    requires Ascending(all) && visited <= all
    ensures Ascending(visited)
  {
  }

  lemma CountDown(a: seq<Node>, k: nat, b: seq<Node>)
    requires k < |a| && b == a[..k] + a[k + 1..]
    ensures |b| == |a| - 1
  {
  }

  lemma DeleteOrder(c: Context, t: Shape, s: Shape)
    requires t.Fork? && Inorder(s) == Inorder(t.left) + Inorder(t.right) && Ascending(Inorder(Plug(c, t)))
    ensures var k := |Before(c) + Inorder(t.left)|; var a := Inorder(Plug(c, t));
            && k < |a| && a[k] == t.node && Inorder(Plug(c, s)) == a[..k] + a[k + 1..]
            && Ascending(Inorder(Plug(c, s)))
  {
    InorderPlug(c, t);
    InorderPlug(c, s);
    CutOut(Before(c), Inorder(t.left), t.node, Inorder(t.right), After(c), Inorder(s));
    AscendingParts(Before(c) + Inorder(t.left), t.node, Inorder(t.right) + After(c));
  }

  lemma DeleteNodes(c: Context, t: Shape, s: Shape)
    requires t.Fork? && ContextNodes(c) !! Nodes(t) && Nodes(s) == Nodes(t) - {t.node}
    ensures Nodes(Plug(c, s)) == Nodes(Plug(c, t)) - {t.node}
  {
    NodesPlug(c, t);
    NodesPlug(c, s);
  }

  lemma RightPart(a: seq<Node>, n: Node, b: seq<Node>, c: seq<Node>)
    ensures a + [n] + ([] + b + c) == a + ([] + ([] + [n] + b) + c)
  {
  }

  /** The shapes around the successor of a node with two children. */
  lemma SuccessorOrder(t: Shape, d: Context, u: Shape)
    requires t.Fork? && t.right == Plug(d, u) && u.Fork? && u.left == Leaf && Before(d) == []
    ensures Inorder(Fork(t.left, u.node, Plug(d, u.right))) == Inorder(t.left) + Inorder(t.right)
  {
    InorderPlug(d, u);
    InorderPlug(d, u.right);
    RightPart(Inorder(t.left), u.node, Inorder(u.right), After(d));
  }

  lemma SuccessorNodes(t: Shape, d: Context, u: Shape)
    requires t.Fork? && t.right == Plug(d, u) && u.Fork? && u.left == Leaf
    requires t.node !in Nodes(t.left) && t.node !in Nodes(t.right) && Nodes(t.left) !! Nodes(t.right)
    requires ContextNodes(d) !! Nodes(u) && u.node !in Nodes(u.right)
    ensures Nodes(t.left) + {u.node} + Nodes(Plug(d, u.right)) == Nodes(t) - {t.node}
    ensures u.node !in Nodes(t.left) && u.node !in Nodes(Plug(d, u.right))
    ensures Nodes(t.left) !! Nodes(Plug(d, u.right)) && Nodes(Plug(d, u.right)) <= Nodes(t.right)
    ensures ContextNodes(d) <= Nodes(t.right) && Nodes(u) <= Nodes(t.right)
  {
    NodesPlug(d, u);
    NodesPlug(d, u.right);
    SuccessorSets(t, d, u, Plug(d, u.right));
  }

  lemma SuccessorSets(t: Shape, d: Context, u: Shape, rest: Shape)
    requires t.Fork? && u.Fork? && u.left == Leaf
    requires Nodes(t.right) == ContextNodes(d) + Nodes(u) && Nodes(rest) == ContextNodes(d) + Nodes(u.right)
    requires t.node !in Nodes(t.left) && t.node !in Nodes(t.right) && Nodes(t.left) !! Nodes(t.right)
    requires ContextNodes(d) !! Nodes(u) && u.node !in Nodes(u.right)
    ensures Nodes(t.left) + {u.node} + Nodes(rest) == Nodes(t) - {t.node}
    ensures u.node !in Nodes(t.left) && u.node !in Nodes(rest)
    ensures Nodes(t.left) !! Nodes(rest) && Nodes(rest) <= Nodes(t.right)
    ensures ContextNodes(d) <= Nodes(t.right) && Nodes(u) <= Nodes(t.right)
  {
    SetsAround(Nodes(t), Nodes(t.left), t.node, Nodes(t.right), ContextNodes(d), u.node, Nodes(u.right), Nodes(u),
               Nodes(rest));
  }

  lemma SetsAround(all: set<Node>, l: set<Node>, x: Node, r: set<Node>, d: set<Node>, n: Node, ur: set<Node>,
                   u: set<Node>, rest: set<Node>)
    requires all == l + {x} + r && r == d + u && u == {} + {n} + ur && rest == d + ur
    requires x !in l && x !in r && l !! r && d !! u && n !in ur
    ensures l + {n} + rest == all - {x}
    ensures n !in l && n !in rest && l !! rest && rest <= r && d <= r && u <= r
  {
  }

  lemma InsertShape(c: Context, n: Node)
    requires Ascending(Inorder(Plug(c, Leaf))) && Around(c, n.data)
    ensures var t := Plug(c, Fork(Leaf, n, Leaf));
            && Inorder(Plug(c, Leaf)) == Before(c) + After(c)
            && Inorder(t) == Before(c) + [n] + After(c)
            && Ascending(Inorder(t)) && Nodes(t) == Nodes(Plug(c, Leaf)) + {n}
  {
    InorderPlug(c, Leaf);
    InorderPlug(c, Fork(Leaf, n, Leaf));
    NodesPlug(c, Leaf);
    NodesPlug(c, Fork(Leaf, n, Leaf));
    assert Inorder(Fork(Leaf, n, Leaf)) == [n];
    assert Before(c) + [] + After(c) == Before(c) + After(c);
    InsertedAscending(c, n);
  }

  lemma InsertedAscending(c: Context, n: Node)
    requires Ascending(Before(c) + After(c)) && Around(c, n.data)
    ensures Ascending(Before(c) + [n] + After(c))
  {
    var a, b := Before(c), After(c);
    var s := a + [n] + b;
    forall i, j | 0 <= i < j < |s|
      ensures Less(s[i].data, s[j].data)
    {
      if i != |a| && j != |a| {
        var i', j' := if i < |a| then i else i - 1, if j < |a| then j else j - 1;
        assert (a + b)[i'] == s[i] && (a + b)[j'] == s[j];
      } else if i == |a| {
        assert s[j] in b;
      } else {
        assert s[i] in a;
      }
    }
  }

  lemma AscendingParts(a: seq<Node>, n: Node, b: seq<Node>)
    requires Ascending(a + [n] + b)
    ensures Ascending(a + b) && Ascending(a) && Ascending(b)
    ensures forall m :: m in a ==> Less(m.data, n.data)
    ensures forall m :: m in b ==> Less(n.data, m.data)
  {
    var s := a + [n] + b;
    assert s[|a|] == n;
    assert forall i :: 0 <= i < |a| ==> s[i] == a[i];
    assert forall i :: 0 <= i < |b| ==> s[|a| + 1 + i] == b[i];
    forall i, j | 0 <= i < j < |a + b|
      ensures Less((a + b)[i].data, (a + b)[j].data)
    {
      var i', j' := if i < |a| then i else i + 1, if j < |a| then j else j + 1;
      assert s[i'] == (a + b)[i] && s[j'] == (a + b)[j];
    }
  }

  /** Going left or right from a node keeps the bounds around the hole. */
  lemma StepAround(c: Context, t: Shape, key: Bytes)
    requires t.Fork? && Around(c, key) && Ascending(Inorder(Plug(c, t)))
    ensures Less(key, t.node.data) ==> Around(LeftOf(c, t.node, t.right), key)
    ensures !Less(key, t.node.data) && key != t.node.data ==> Around(RightOf(t.left, t.node, c), key)
  {
    hide Plug, Ascending, Compare, MemCmp;
    InorderPlug(c, t);
    var a, n, b := Before(c) + Inorder(t.left), t.node, Inorder(t.right) + After(c);
    assert Before(c) + Inorder(t) + After(c) == a + [n] + b;
    AscendingParts(a, n, b);
    if Less(key, n.data) {
      LeftAround(c, t, key);
    } else if key != n.data {
      CompareIsStrictTotalOrder(key, n.data, n.data);
      RightAround(c, t, key);
    }
  }

  lemma LeftAround(c: Context, t: Shape, key: Bytes)
    requires t.Fork? && Around(c, key) && Less(key, t.node.data)
    requires forall m :: m in Inorder(t.right) + After(c) ==> Less(t.node.data, m.data)
    ensures Around(LeftOf(c, t.node, t.right), key)
  {
    hide Compare, MemCmp, Inorder;
    forall m | m in After(LeftOf(c, t.node, t.right))
      ensures Less(key, m.data)
    {
      if m != t.node {
        assert m in Inorder(t.right) + After(c);
        CompareTransitive(key, t.node.data, m.data);
      }
    }
  }

  lemma RightAround(c: Context, t: Shape, key: Bytes)
    requires t.Fork? && Around(c, key) && Less(t.node.data, key)
    requires forall m :: m in Before(c) + Inorder(t.left) ==> Less(m.data, t.node.data)
    ensures Around(RightOf(t.left, t.node, c), key)
  {
    hide Compare, MemCmp, Inorder;
    forall m | m in Before(RightOf(t.left, t.node, c))
      ensures Less(m.data, key)
    {
      if m != t.node {
        assert m in Before(c) + Inorder(t.left);
        CompareTransitive(m.data, t.node.data, key);
      }
    }
  }
}
