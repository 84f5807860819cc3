/** Prism's LinkedList: a doubly linked list of values between two sentinels. */
module TokenLists {
  import opened Wrappers
  import opened Pieces

  /** A list node. The sentinels hold no value. */
  class Node {
    const value: Option<Piece>
    var prev: Node?
    var next: Node?

    constructor (value: Option<Piece>, prev: Node?, next: Node?)
      ensures this.value == value && this.prev == prev && this.next == next
    {
      this.value, this.prev, this.next := value, prev, next;
    }
  }

  /** next and prev agree along a run of nodes. */
  ghost predicate Linked(c: seq<Node>)
    reads c
  {
    && (forall i {:trigger c[i].next} :: 0 <= i < |c| - 1 ==> c[i].next == c[i + 1])
    && (forall i {:trigger c[i].prev} :: 1 <= i < |c| ==> c[i].prev == c[i - 1])
  }

  lemma LinkedSlice(c: seq<Node>, i: nat, j: nat)
    requires i <= j <= |c| && Linked(c)
    ensures Linked(c[i..j])
  {
    var d := c[i..j];
    forall k {:trigger d[k].next} | 0 <= k < |d| - 1 ensures d[k].next == d[k + 1] {
      assert c[i + k].next == c[i + k + 1];
    }
    forall k {:trigger d[k].prev} | 1 <= k < |d| ensures d[k].prev == d[k - 1] {
      assert c[i + k].prev == c[i + k - 1];
    }
  }

  lemma LinkedJoin(a: seq<Node>, b: seq<Node>)
    requires Linked(a) && Linked(b)
    requires a != [] && b != [] ==> a[|a| - 1].next == b[0] && b[0].prev == a[|a| - 1]
    ensures Linked(a + b)
  {
    var d := a + b;
    forall k {:trigger d[k].next} | 0 <= k < |d| - 1 ensures d[k].next == d[k + 1] {
      if k < |a| - 1 { assert a[k].next == a[k + 1]; }
      if k >= |a| { assert b[k - |a|].next == b[k - |a| + 1]; }
    }
    forall k {:trigger d[k].prev} | 1 <= k < |d| ensures d[k].prev == d[k - 1] {
      if k < |a| { assert a[k].prev == a[k - 1]; }
      if k > |a| { assert b[k - |a|].prev == b[k - |a| - 1]; }
    }
  }

  /** Make two runs one: `left.next = right; right.prev = left`. */
  method Connect(left: Node, right: Node, ghost front: seq<Node>, ghost back: seq<Node>)
    requires Linked(front) && Linked(back)
    requires front != [] && back != [] && left == front[|front| - 1] && right == back[0]
    requires forall j :: 0 <= j < |front| - 1 ==> front[j] != left
    requires forall j :: 0 <= j < |front| ==> front[j] != right
    requires forall j :: 0 <= j < |back| ==> back[j] != left
    requires forall j :: 1 <= j < |back| ==> back[j] != right
    modifies left`next, right`prev
    ensures Linked(front + back)
  {
    left.next := right;
    right.prev := left;
    assert Linked(front) && Linked(back);
    LinkedJoin(front, back);
  }

  /** Put one new node between two runs. */
  method Insert(left: Node, added: Node, right: Node, ghost front: seq<Node>, ghost back: seq<Node>)
    requires Linked(front) && Linked(back)
    requires front != [] && back != [] && left == front[|front| - 1] && right == back[0]
    requires added !in front && added !in back
    requires forall j :: 0 <= j < |front| - 1 ==> front[j] != left
    requires forall j :: 0 <= j < |front| ==> front[j] != right
    requires forall j :: 0 <= j < |back| ==> back[j] != left
    requires forall j :: 1 <= j < |back| ==> back[j] != right
    modifies left`next, added`prev, added`next, right`prev
    ensures Linked(front + [added] + back)
  {
    Connect(left, added, front, [added]);
    Connect(added, right, front + [added], back);
  }

  /** The nodes between the sentinels hold these values. */
  ghost predicate Holds(chain: seq<Node>, pieces: seq<Piece>) {
    && |chain| == |pieces| + 2
    && forall i {:trigger chain[i]} :: 1 <= i < |chain| - 1 ==> chain[i].value == Some(pieces[i - 1])
  }

  lemma HoldsSpliced(chain: seq<Node>, pieces: seq<Piece>, i: nat, n: nat, nodes: seq<Node>, mid: seq<Piece>)
    requires Holds(chain, pieces) && i + n <= |pieces|
    requires |nodes| == |mid| && forall j :: 0 <= j < |mid| ==> nodes[j].value == Some(mid[j])
    ensures Holds(chain[..i + 1] + nodes + chain[i + 1 + n..], Spliced(pieces, i, n, mid))
  {
    var c, p := chain[..i + 1] + nodes + chain[i + 1 + n..], Spliced(pieces, i, n, mid);
    forall j | 1 <= j < |c| - 1 ensures c[j].value == Some(p[j - 1]) {
      if j > i + |mid| { assert c[j] == chain[j - |mid| + n]; }
    }
  }

  class TokenList {
    const head: Node
    const tail: Node
    var length: nat
    /** Every node from head to tail, and the values between them. */
    ghost var chain: seq<Node>
    ghost var pieces: seq<Piece>

    ghost function Nodes(): set<Node>
      reads this
    {
      set n | n in chain
    }

    ghost predicate Valid()
      reads this, chain
    {
      && |chain| == |pieces| + 2 && length == |pieces|
      && chain[0] == head && chain[|chain| - 1] == tail
      && tail.next == null
      && Linked(chain)
      && Holds(chain, pieces)
    }

    /** A list that ends cannot pass a node twice. */
    lemma {:induction false} Later(i: nat, j: nat)
      requires Valid() && i < j < |chain|
      ensures chain[i] != chain[j]
      decreases |chain| - j
    {
      if j == |chain| - 1 {
        assert chain[i].next == chain[i + 1];
      } else {
        Later(i + 1, j + 1);
        assert chain[i].next == chain[i + 1] && chain[j].next == chain[j + 1];
      }
    }

    lemma OnlyAt(i: nat)
      requires Valid() && i < |chain|
      ensures forall j :: 0 <= j < |chain| && j != i ==> chain[j] != chain[i]
    {
      forall j | 0 <= j < |chain| && j != i ensures chain[j] != chain[i] {
        if i < j { Later(i, j); } else { Later(j, i); }
      }
    }

    /** The node of piece `i`. */
    lemma NodeOf(i: nat)
      requires Valid() && i < |pieces|
      ensures chain[i + 1] != tail && chain[i + 1].value == Some(pieces[i]) && chain[i + 1].next == chain[i + 2]
    {
      Later(i + 1, |chain| - 1);
    }

    constructor ()
      ensures Valid() && pieces == [] && length == 0
      ensures fresh(chain[0]) && fresh(chain[1])
    {
      var e := new Node(None, null, null);
      var n := new Node(None, e, null);
      e.next := n;
      head, tail, length := e, n, 0;
      chain, pieces := [e, n], [];
    }

    /** addAfter: a new node holding `value` right after `node`. */
    method AddAfter(node: Node, ghost i: nat, value: Piece) returns (added: Node)
      requires Valid() && i < |chain| - 1 && chain[i] == node
      modifies this, Nodes()
      ensures Valid() && fresh(added) && added.value == Some(value)
      ensures chain == old(chain)[..i + 1] + [added] + old(chain)[i + 1..]
      ensures pieces == Spliced(old(pieces), i, 0, [value])
    {
      OnlyAt(i);
      OnlyAt(i + 1);
      ghost var front, back := chain[..i + 1], chain[i + 1..];
      LinkedSlice(chain, 0, i + 1);
      LinkedSlice(chain, i + 1, |chain|);
      var next := node.next;
      added := new Node(Some(value), node, next);
      HoldsSpliced(chain, pieces, i, 0, [added], [value]);
      Insert(node, added, next, front, back);
      length := length + 1;
      chain := front + [added] + back;
      pieces := Spliced(pieces, i, 0, [value]);
    }

    /** removeRange: unlink up to `count` nodes after `node`, stopping at the tail. */
    method RemoveRange(node: Node, ghost i: nat, count: nat)
      requires Valid() && i < |chain| - 1 && chain[i] == node
      modifies this, Nodes()
      ensures Valid()
      ensures var n := Min(count, |old(pieces)| - i);
        && chain == old(chain)[..i + 1] + old(chain)[i + 1 + n..]
        && pieces == Spliced(old(pieces), i, n, [])
    {
      OnlyAt(|chain| - 1);
      var next, a := node.next, 0;
      while a < count && next != tail
        invariant a <= count && i + a <= |pieces| && next == chain[i + 1 + a]
      {
        next, a := next.next, a + 1;
      }
      Join(node, i, next, a);
    }

    /** The last three assignments of removeRange. */
    method Join(node: Node, ghost i: nat, next: Node, a: nat)
      requires Valid() && i + a <= |pieces| && chain[i] == node && chain[i + 1 + a] == next
      modifies this, Nodes()
      ensures Valid()
      ensures chain == old(chain)[..i + 1] + old(chain)[i + 1 + a..]
      ensures pieces == Spliced(old(pieces), i, a, [])
    {
      OnlyAt(i);
      OnlyAt(i + 1 + a);
      ghost var front, back := chain[..i + 1], chain[i + 1 + a..];
      LinkedSlice(chain, 0, i + 1);
      LinkedSlice(chain, i + 1 + a, |chain|);
      HoldsSpliced(chain, pieces, i, a, [], []);
      assert front + [] + back == front + back;
      Connect(node, next, front, back);
      length := length - a;
      chain := front + back;
      pieces := Spliced(pieces, i, a, []);
    }
  }

  /** `s` with the `n` elements from `i` on replaced by `mid`. */
  function Spliced<T>(s: seq<T>, i: nat, n: nat, mid: seq<T>): seq<T>
    requires i + n <= |s|
  {
    s[..i] + mid + s[i + n..]
  }

  /** The front of a list that a splice leaves alone. */
  ghost predicate SameUpTo<T>(a: seq<T>, b: seq<T>, i: nat) {
    i <= |a| && i <= |b| && a[..i] == b[..i]
  }

  lemma Inserted<T>(s: seq<T>, i: nat, x: T)
    requires i <= |s|
    ensures var r := s[..i] + [x] + s[i..];
      && r[i] == x && SameUpTo(r, s, i)
      && forall y :: y in r ==> y in s || y == x
  {}

  lemma Removed<T>(s: seq<T>, i: nat, n: nat)
    requires i + n <= |s|
    ensures var r := s[..i] + s[i + n..];
      && SameUpTo(r, s, i)
      && forall y :: y in r ==> y in s
  {}

  function Min(a: nat, b: nat): nat { if a < b then a else b }
}
