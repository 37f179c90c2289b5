/** The three-colour depth-first search that looks for a dependency cycle. */
module CycleDetection {
  import opened Wrappers

  /** Prerequisites of every known node; a prerequisite may itself be unknown. */
  type Graph = map<string, seq<string>>

  predicate Edge(g: Graph, a: string, b: string) {
    a in g && b in g && b in g[a]
  }

  predicate Walk(g: Graph, p: seq<string>) {
    forall i :: 0 <= i < |p| - 1 ==> Edge(g, p[i], p[i + 1])
  }

  /** At least one step along known prerequisites, returning to where it started. */
  predicate ClosedWalk(g: Graph, p: seq<string>) {
    |p| >= 2 && p[0] == p[|p| - 1] && Walk(g, p)
  }

  ghost predicate Acyclic(g: Graph) {
    forall p :: !ClosedWalk(g, p)
  }

  predicate Distinct(s: seq<string>) {
    forall i, j :: 0 <= i < j < |s| ==> s[i] != s[j]
  }

  /** Every known prerequisite of a listed node is listed before it. */
  predicate Topological(g: Graph, order: seq<string>) {
    && Distinct(order)
    && forall i, dep :: 0 <= i < |order| && order[i] in g && dep in g[order[i]] && dep in g ==> dep in order[..i]
  }

  /** A complete topological order leaves no room for a closed walk. */
  lemma {:induction false} TopologicalIsAcyclic(g: Graph, order: seq<string>)
    requires Topological(g, order) && forall id :: id in g ==> id in order
    ensures Acyclic(g)
  {
    forall p ensures !ClosedWalk(g, p) {
      if ClosedWalk(g, p) {
        assert Edge(g, p[0], p[1]);
        var i :| 0 <= i < |order| && order[i] == p[0];
        var j :| 0 <= j < |order| && order[j] == p[|p| - 1];
        WalkDescends(g, order, p, i, |p| - 1, j);
        assert false;
      }
    }
  }

  /** Along a walk the positions in a topological order go down. */
  lemma {:induction false} WalkDescends(g: Graph, order: seq<string>, p: seq<string>, i: nat, k: nat, j: nat)
    requires Topological(g, order) && Walk(g, p)
    requires 0 < k < |p| && i < |order| && j < |order| && order[i] == p[0] && order[j] == p[k]
    ensures j < i
    decreases k
  {
    assert Edge(g, p[k - 1], p[k]);
    if k == 1 {
      Below(g, order, i, p[k], j);
    } else {
      var m := PositionOf(g, order, p, i, k - 1);
      WalkDescends(g, order, p, i, k - 1, m);
      Below(g, order, m, p[k], j);
    }
  }

  lemma Below(g: Graph, order: seq<string>, i: nat, dep: string, j: nat)
    requires Topological(g, order) && i < |order| && j < |order| && order[j] == dep
    requires Edge(g, order[i], dep)
    ensures j < i
  {
    assert dep in order[..i];
    var m :| 0 <= m < i && order[m] == dep;
  }

  /** Every node a walk visits from a listed node is listed. */
  lemma {:induction false} PositionOf(g: Graph, order: seq<string>, p: seq<string>, i: nat, k: nat) returns (m: nat)
    requires Topological(g, order) && Walk(g, p) && k < |p| && i < |order| && order[i] == p[0]
    ensures m < |order| && order[m] == p[k]
    decreases k
  {
    if k == 0 { return i; }
    assert Edge(g, p[k - 1], p[k]);
    var n := PositionOf(g, order, p, i, k - 1);
    assert p[k] in order[..n];
    m :| 0 <= m < n && order[m] == p[k];
  }

  /** The unfinished path from the root of the search to the node being explored. */
  predicate PathOf(g: Graph, stack: seq<string>) {
    && Distinct(stack) && Walk(g, stack)
    && forall i :: 0 <= i < |stack| ==> stack[i] in g
  }

  /** Grey nodes are exactly the stack, black nodes exactly the finished ones. */
  ghost predicate Colours(g: Graph, visited: map<string, int>, stack: seq<string>, finished: seq<string>) {
    && (forall id :: id in visited ==> id in g && (visited[id] == 0 || visited[id] == 1))
    && (forall id :: id in stack <==> id in visited && visited[id] == 0)
    && (forall id :: id in finished <==> id in visited && visited[id] == 1)
  }

  lemma EnterKeepsColours(g: Graph, visited: map<string, int>, stack: seq<string>, finished: seq<string>, node: string)
    requires Colours(g, visited, stack, finished) && node in g && node !in visited
    ensures Colours(g, visited[node := 0], stack + [node], finished)
    ensures node !in stack && node !in finished
  {
  }

  lemma LeaveKeepsColours(g: Graph, visited: map<string, int>, stack: seq<string>, finished: seq<string>, node: string)
    requires Colours(g, visited, stack + [node], finished) && node !in stack
    ensures Colours(g, visited[node := 1], stack, finished + [node])
    ensures node !in finished
  {
    assert node in stack + [node];
  }

  lemma ColourOf(g: Graph, visited: map<string, int>, stack: seq<string>, finished: seq<string>, id: string)
    requires Colours(g, visited, stack, finished) && id in visited
    ensures visited[id] == 0 || visited[id] == 1
    ensures visited[id] == 0 ==> id in stack
    ensures visited[id] == 1 ==> id in finished
  {
  }

  class CycleDetector {
    const blocks: Graph
    const order: seq<string>
    /** 0 while a node is being explored, 1 once it is finished. */
    var visited: map<string, int>
    var stack: seq<string>
    var cyclePath: seq<string>
    /** Nodes in the order they were finished. */
    ghost var finished: seq<string>

    constructor (blocks: Graph, order: seq<string>)
      requires Distinct(order) && forall id :: id in order <==> id in blocks
      ensures this.blocks == blocks && this.order == order
      ensures visited == map[] && stack == [] && cyclePath == [] && Valid()
    {
      this.blocks, this.order := blocks, order;
      this.visited, this.stack, this.cyclePath := map[], [], [];
      this.finished := [];
    }

    /** The colours are right, the grey nodes form a path, and the black ones are in topological order. */
    ghost predicate Valid()
      reads this
    {
      && Colours(blocks, visited, stack, finished)
      && PathOf(blocks, stack)
      && Topological(blocks, finished)
    }

    ghost function Unvisited(): set<string>
      reads this
    {
      blocks.Keys - visited.Keys
    }

    /** The first position of an element of the stack. */
    method IndexOf(id: string) returns (i: nat)
      requires id in stack
      ensures i < |stack| && stack[i] == id && id !in stack[..i]
    {
      i := 0;
      while stack[i] != id
        invariant i < |stack| && id !in stack[..i]
        decreases |stack| - i
      {
        i := i + 1;
      }
    }

    method Dfs(node: string) returns (found: bool)
      requires Valid() && node in blocks && node !in visited && cyclePath == []
      requires stack == [] || Edge(blocks, stack[|stack| - 1], node)
      modifies this
      ensures found ==> ClosedWalk(blocks, cyclePath)
      ensures !found ==>
        && Valid() && stack == old(stack) && cyclePath == []
        && node in visited && visited[node] == 1
        && (forall id :: id in old(visited) ==> id in visited && visited[id] == old(visited)[id])
        && old(finished) <= finished
      decreases Unvisited()
    {
      hide Topological, PathOf, ClosedWalk, Colours;
      ghost var before := Unvisited();
      EnterKeepsColours(blocks, visited, stack, finished, node);
      PushKeepsPath(blocks, stack, node);
      visited := visited[node := 0];
      stack := stack + [node];
      assert Unvisited() < before by { assert node in before && node !in Unvisited(); }
      ghost var grey := stack;
      ghost var seen := visited;
      ghost var done := finished;
      var depends := blocks[node];
      for j := 0 to |depends|
        invariant Valid() && stack == grey && cyclePath == []
        invariant Unvisited() < before
        invariant forall id :: id in seen ==> id in visited && visited[id] == seen[id]
        invariant done <= finished
        invariant forall k :: 0 <= k < j && depends[k] in blocks ==> depends[k] in visited && visited[depends[k]] == 1
      {
        var dep := depends[j];
        if dep in blocks {
          if dep in visited { ColourOf(blocks, visited, stack, finished, dep); }
          if dep in visited && visited[dep] == 0 {
            var start := IndexOf(dep);
            cyclePath := stack[start..] + [dep];
            ClosesWalk(blocks, stack, start, dep);
            return true;
          }
          if dep !in visited {
            found := Dfs(dep);
            if found { return true; }
          }
        }
      }
      forall dep | dep in depends && dep in blocks ensures dep in finished {
        ColourOf(blocks, visited, stack, finished, dep);
      }
      assert stack == old(stack) + [node];
      LeaveKeepsColours(blocks, visited, old(stack), finished, node);
      FinishesInOrder(blocks, finished, node);
      PopKeepsPath(blocks, grey);
      stack := stack[..|stack| - 1];
      visited := visited[node := 1];
      finished := finished + [node];
      return false;
    }

    /** A cycle is reported exactly when there is one, and the reported path is one. */
    method DetectCycle() returns (cycle: Option<seq<string>>)
      requires visited == map[] && stack == [] && cyclePath == [] && Valid()
      requires Distinct(order) && forall id :: id in order <==> id in blocks
      modifies this
      ensures cycle.Some? ==> ClosedWalk(blocks, cycle.value)
      ensures cycle.None? <==> Acyclic(blocks)
    {
      for i := 0 to |order|
        invariant Valid() && stack == [] && cyclePath == []
        invariant forall k :: 0 <= k < i ==> order[k] in visited && visited[order[k]] == 1
      {
        if order[i] !in visited {
          var found := Dfs(order[i]);
          if found { return Some(cyclePath); }
        }
      }
      TopologicalIsAcyclic(blocks, finished);
      return None;
    }
  }

  /** The part of the stack from a grey node on, closed by an edge back to it. */
  lemma ClosesWalk(g: Graph, stack: seq<string>, start: nat, dep: string)
    requires PathOf(g, stack) && start < |stack| && stack[start] == dep && Edge(g, stack[|stack| - 1], dep)
    ensures ClosedWalk(g, stack[start..] + [dep])
  {
    var p := stack[start..] + [dep];
    forall i | 0 <= i < |p| - 1 ensures Edge(g, p[i], p[i + 1]) {
      if i < |p| - 2 { assert Edge(g, stack[start + i], stack[start + i + 1]); }
    }
  }

  lemma PushKeepsPath(g: Graph, stack: seq<string>, node: string)
    requires PathOf(g, stack) && node in g && node !in stack
    requires stack == [] || Edge(g, stack[|stack| - 1], node)
    ensures PathOf(g, stack + [node])
  {
    var longer := stack + [node];
    forall i | 0 <= i < |longer| - 1 ensures Edge(g, longer[i], longer[i + 1]) {
      if i < |stack| - 1 { assert Edge(g, stack[i], stack[i + 1]); }
    }
  }

  lemma PopKeepsPath(g: Graph, stack: seq<string>)
    requires PathOf(g, stack) && stack != []
    ensures PathOf(g, stack[..|stack| - 1])
    ensures forall id :: id in stack[..|stack| - 1] <==> id in stack && id != stack[|stack| - 1]
  {
    var shorter := stack[..|stack| - 1];
    forall i | 0 <= i < |shorter| - 1 ensures Edge(g, shorter[i], shorter[i + 1]) {
      assert Edge(g, stack[i], stack[i + 1]);
    }
  }

  /** A node whose known prerequisites are all finished may be finished next. */
  lemma FinishesInOrder(g: Graph, finished: seq<string>, node: string)
    requires Topological(g, finished) && node in g && node !in finished
    requires forall dep :: dep in g[node] && dep in g ==> dep in finished
    ensures Topological(g, finished + [node])
  {
    var longer := finished + [node];
    forall i, dep | 0 <= i < |longer| && longer[i] in g && dep in g[longer[i]] && dep in g ensures dep in longer[..i] {
      if i < |finished| { assert longer[..i] == finished[..i]; } else { assert longer[..i] == finished; }
    }
  }

  // ----- Closed walks in finite graphs -----

  lemma {:induction false} TooLongRepeats(s: seq<string>, ids: set<string>)
    requires forall i :: 0 <= i < |s| ==> s[i] in ids
    requires |s| > |ids|
    ensures !Distinct(s)
    decreases |s|
  {
    if Distinct(s) {
      var last := |s| - 1;
      TooLongRepeats(s[..last], ids - {s[last]});
    }
  }

  /** A walk longer than the graph comes back to a node it has already visited. */
  lemma LongWalkCloses(g: Graph, p: seq<string>) returns (closed: seq<string>)
    requires Walk(g, p) && |p| > |g.Keys| && forall i :: 0 <= i < |p| ==> p[i] in g
    ensures ClosedWalk(g, closed)
  {
    TooLongRepeats(p, g.Keys);
    var i, j :| 0 <= i < j < |p| && p[i] == p[j];
    closed := p[i..j + 1];
    forall k | 0 <= k < |closed| - 1 ensures Edge(g, closed[k], closed[k + 1]) {
      assert Edge(g, p[i + k], p[i + k + 1]);
    }
  }

  lemma SubgraphWalk(g: Graph, sub: Graph, p: seq<string>)
    requires forall id :: id in sub ==> id in g && sub[id] == g[id]
    requires ClosedWalk(sub, p)
    ensures ClosedWalk(g, p)
  {
    forall k | 0 <= k < |p| - 1 ensures Edge(g, p[k], p[k + 1]) { assert Edge(sub, p[k], p[k + 1]); }
  }

  lemma SubgraphWalks(g: Graph, sub: Graph)
    requires forall id :: id in sub ==> id in g && sub[id] == g[id]
    ensures forall p :: ClosedWalk(sub, p) ==> ClosedWalk(g, p)
  {
    forall p | ClosedWalk(sub, p) ensures ClosedWalk(g, p) { SubgraphWalk(g, sub, p); }
  }

  lemma SubgraphIsAcyclic(g: Graph, sub: Graph)
    requires Acyclic(g)
    requires forall id :: id in sub ==> id in g && sub[id] == g[id]
    ensures Acyclic(sub)
  {
    SubgraphWalks(g, sub);
  }
}
