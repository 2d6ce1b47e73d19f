/**
 * What the analyzers see of a Python source file: the nodes `ast.walk` yields,
 * reduced to the kinds they test for, and the tree those nodes come from.
 */
module Walk {
  import opened Wrappers

  /**
   * A visited AST node: a `def` (not `async def`), a `class`, a call whose
   * callee is a bare name, any other call (an attribute call, a call of a call),
   * or any other node.
   */
  datatype Node =
    | FunctionDef(name: string, line: nat)
    | ClassDef(name: string, line: nat)
    | NameCall(callee: string)
    | OtherCall
    | OtherNode

  /** Opening and parsing a file: the read raised, `ast.parse` raised, or the walk of its tree. */
  datatype Source = ReadFailed(reason: string) | SyntaxError | Parsed(walk: seq<Node>)

  /** The nodes an analysis visits: none unless the file parsed. */
  function Walked(source: Source): seq<Node> {
    if source.Parsed? then source.walk else []
  }

  predicate IsFunctionDef(n: Node) {
    n.FunctionDef?
  }

  /** A syntax tree: a node and its children in field order. */
  datatype Tree = Tree(node: Node, children: seq<Tree>)

  function Size(t: Tree): nat
    decreases t
  {
    1 + ForestSize(t.children)
  }

  function ForestSize(ts: seq<Tree>): nat
    decreases ts
  {
    if ts == [] then 0 else Size(ts[0]) + ForestSize(ts[1..])
  }

  lemma {:induction false} ForestSizeAppend(a: seq<Tree>, b: seq<Tree>)
    ensures ForestSize(a + b) == ForestSize(a) + ForestSize(b)
  {
    if a != [] {
      assert (a + b)[0] == a[0] && (a + b)[1..] == a[1..] + b;
      ForestSizeAppend(a[1..], b);
    } else {
      assert a + b == b;
    }
  }

  /**
   * `ast.walk` as CPython implements it: take the first node of a queue, yield
   * it, and add its children at the back, so the tree comes out level by level.
   */
  function Bfs(queue: seq<Tree>): seq<Node>
    decreases ForestSize(queue)
  {
    if queue == [] then []
    else
      ForestSizeAppend(queue[1..], queue[0].children);
      assert ForestSize(queue) == 1 + ForestSize(queue[0].children) + ForestSize(queue[1..]);
      [queue[0].node] + Bfs(queue[1..] + queue[0].children)
  }

  /** One step of the walk: the front node is yielded and its children queue up behind the rest. */
  lemma BfsStep(queue: seq<Tree>)
    requires queue != []
    ensures Bfs(queue) == [queue[0].node] + Bfs(queue[1..] + queue[0].children)
  {
  }

  /** Every node of a forest, with repeats. */
  function ForestNodes(ts: seq<Tree>): multiset<Node>
    decreases ts
  {
    if ts == [] then multiset{}
    else multiset{ts[0].node} + ForestNodes(ts[0].children) + ForestNodes(ts[1..])
  }

  lemma {:induction false} ForestNodesAppend(a: seq<Tree>, b: seq<Tree>)
    ensures ForestNodes(a + b) == ForestNodes(a) + ForestNodes(b)
  {
    if a != [] {
      assert (a + b)[0] == a[0] && (a + b)[1..] == a[1..] + b;
      ForestNodesAppend(a[1..], b);
    } else {
      assert a + b == b;
    }
  }

  /**
   * The walk yields every node of the queued trees exactly once: as many nodes
   * as the trees hold, and the same nodes with the same repeats.
   */
  lemma {:induction false} BfsYieldsEveryNode(queue: seq<Tree>)
    ensures |Bfs(queue)| == ForestSize(queue)
    ensures multiset(Bfs(queue)) == ForestNodes(queue)
    decreases ForestSize(queue)
  {
    if queue != [] {
      var rest := queue[1..] + queue[0].children;
      ForestSizeAppend(queue[1..], queue[0].children);
      ForestNodesAppend(queue[1..], queue[0].children);
      assert ForestSize(queue) == 1 + ForestSize(queue[0].children) + ForestSize(queue[1..]);
      BfsYieldsEveryNode(rest);
      BfsStep(queue);
    }
  }
}
