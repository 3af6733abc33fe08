/**
 Directory trees and the breadth-first order in which the generator lays out their
 entries.  The children of each directory come out as one consecutive run, at a
 position the generator computes from the entry index and the queue length alone.
 */
module BootfsTree {
  import opened BootfsBytes

  datatype Node = File(name: Bytes, data: Bytes) | Dir(name: Bytes, nodes: seq<Node>)

  function Kids(n: Node): seq<Node> { if n.Dir? then n.nodes else [] }

  ghost function WeightOf(n: Node): nat
    decreases n, 1
  {
    match n
    case File(_, _) => 1
    case Dir(_, nodes) => 1 + Weight(nodes)
  }

  ghost function Weight(q: seq<Node>): nat
    decreases q, 0
  {
    if q == [] then 0 else WeightOf(q[0]) + Weight(q[1..])
  }

  lemma {:induction false} WeightConcat(a: seq<Node>, b: seq<Node>)
    ensures Weight(a + b) == Weight(a) + Weight(b)
  {
    if a == [] {
      assert a + b == b;
    } else {
      WeightConcat(a[1..], b);
      assert (a + b)[1..] == a[1..] + b;
    }
  }

  lemma QueueShrinks(q: seq<Node>)
    requires q != []
    ensures Weight(q[1..] + Kids(q[0])) < Weight(q)
  {
    WeightConcat(q[1..], Kids(q[0]));
  }

  /** The order in which a queue is emptied when every directory enqueues its children. */
  ghost function Bfs(q: seq<Node>): (order: seq<Node>)
    decreases Weight(q)
  {
    if q == [] then []
    else
      QueueShrinks(q);
      [q[0]] + Bfs(q[1..] + Kids(q[0]))
  }

  /** The queue itself comes out first. */
  lemma {:induction false} BfsPrefix(q: seq<Node>)
    ensures q <= Bfs(q)
    decreases Weight(q)
  {
    if q == [] {
    } else {
      QueueShrinks(q);
      var q' := q[1..] + Kids(q[0]);
      BfsPrefix(q');
      assert q == [q[0]] + q[1..];
      assert q[1..] <= q' <= Bfs(q');
    }
  }

  /** Where the children of entry `i` start: after the root and the children of all earlier entries. */
  ghost function ChildStart(order: seq<Node>, i: nat): nat
    requires i <= |order|
  {
    if i == 0 then 1 else ChildStart(order, i - 1) + |Kids(order[i - 1])|
  }

  /** The children of entry `i` are the consecutive entries from `ChildStart`. */
  ghost predicate KidsAt(order: seq<Node>, i: nat)
    requires i < |order|
  {
    var c := ChildStart(order, i);
    c + |Kids(order[i])| <= |order| && order[c..c + |Kids(order[i])|] == Kids(order[i])
  }

  /**
   The generator's arithmetic: with `done` already laid out and `q` waiting, the index
   `|done| + |q|` is where the children of the next entry will start.
   */
  lemma {:induction false} QueueInvariant(done: seq<Node>, q: seq<Node>, i: nat)
    requires var order := done + Bfs(q); ChildStart(order, |done|) == |done| + |q|
    requires |done| <= i < |done + Bfs(q)|
    ensures KidsAt(done + Bfs(q), i)
    decreases Weight(q)
  {
    var order := done + Bfs(q);
    if q == [] {
    } else {
      QueueShrinks(q);
      var q', done' := q[1..] + Kids(q[0]), done + [q[0]];
      BfsPrefix(q');
      assert done' + Bfs(q') == order;
      assert order[|done|] == q[0];
      if i == |done| {
        FrontFirst(q);
        NextKids(order, done, q, Bfs(q'));
      } else {
        QueueInvariant(done', q', i);
      }
    }
  }

  lemma NextKids(order: seq<Node>, done: seq<Node>, q: seq<Node>, tail: seq<Node>)
    requires q != [] && order == done + ([q[0]] + tail) && ChildStart(order, |done|) == |done| + |q|
    requires q[1..] + Kids(q[0]) <= tail
    ensures KidsAt(order, |done|)
  {
    hide ChildStart, Kids;
    SliceKids(done, q[0], q[1..], Kids(q[0]), tail);
  }

  lemma SliceKids(done: seq<Node>, n: Node, rest: seq<Node>, kids: seq<Node>, tail: seq<Node>)
    requires rest + kids <= tail
    ensures var order := done + ([n] + tail); var c := |done| + 1 + |rest|;
      order[|done|] == n && c + |kids| <= |order| && order[c..c + |kids|] == kids
  {
    var order, c := done + ([n] + tail), |done| + 1 + |rest|;
    assert |rest + kids| <= |tail|;
    forall i | 0 <= i < |kids|
      ensures order[c + i] == kids[i]
    {
      assert order[c + i] == tail[|rest| + i] == (rest + kids)[|rest| + i];
    }
  }

  lemma FrontFirst(q: seq<Node>)
    requires q != []
    ensures Bfs(q) == [q[0]] + Bfs(q[1..] + Kids(q[0]))
  {
    QueueShrinks(q);
  }

  /** Consecutive children for the whole tree. */
  lemma BfsLayout(root: Node, i: nat)
    requires i < |Bfs([root])|
    ensures Bfs([root])[0] == root && KidsAt(Bfs([root]), i)
  {
    var order := Bfs([root]);
    assert [] + order == order;
    QueueInvariant([], [root], i);
  }
}
