/** The validator's depth-first cycle search. */
module CycleSearch {
  import opened DependencyGraph
  import opened Prelude

  datatype Mark = Visiting | Done

  ghost predicate ClosedGraph(g: Graph) {
    forall a, b | a in g && b in g[a] :: b in g
  }

  predicate IsDone(state: map<string, Mark>, a: string) { a in state && state[a].Done? }

  /** The nodes being visited are the ids on the stack, which is a chain. */
  ghost predicate StackOf(g: Graph, state: map<string, Mark>, stack: seq<string>) {
    && state.Keys <= g.Keys
    && (forall a :: a in state && state[a].Visiting? <==> a in stack)
    && (stack != [] ==> Chain(g, stack))
  }

  /** A finished node only depends on nodes that finished before it. */
  ghost predicate FinishOrder(g: Graph, state: map<string, Mark>, finish: map<string, nat>, finished: nat) {
    && (forall a | IsDone(state, a) :: a in finish && finish[a] < finished)
    && forall a, b | IsDone(state, a) && Edge(g, a, b) :: IsDone(state, b) && finish[b] < finish[a]
  }

  lemma Enter(g: Graph, state: map<string, Mark>, stack: seq<string>, id: string)
    requires StackOf(g, state, stack) && id in g && id !in state
    requires stack != [] ==> Edge(g, stack[|stack| - 1], id)
    ensures StackOf(g, state[id := Visiting], stack + [id])
  {
    var path := stack + [id];
    forall k | 0 <= k < |path| - 1 ensures Edge(g, path[k], path[k + 1]) {
      if k < |stack| - 1 { assert Edge(g, stack[k], stack[k + 1]); }
    }
  }

  lemma EnterKeepsFinish(g: Graph, state: map<string, Mark>, finish: map<string, nat>, finished: nat, id: string)
    requires FinishOrder(g, state, finish, finished) && id !in state
    ensures FinishOrder(g, state[id := Visiting], finish, finished)
  {
    assert forall a :: IsDone(state[id := Visiting], a) <==> IsDone(state, a);
  }

  lemma Leave(g: Graph, state: map<string, Mark>, stack: seq<string>, id: string)
    requires StackOf(g, state, stack + [id]) && id !in stack
    ensures StackOf(g, state[id := Done], stack)
  {
    var path := stack + [id];
    assert id in path && id in g;
    assert forall a :: a in path <==> a in stack || a == id;
    if stack != [] {
      SubChain(g, path, 0, |stack| - 1);
      assert path[0..|stack| - 1 + 1] == stack;
    }
  }

  lemma LeaveFinishes(g: Graph, state: map<string, Mark>, finish: map<string, nat>, finished: nat, id: string)
    requires FinishOrder(g, state, finish, finished) && id in g && !IsDone(state, id)
    requires forall b | Edge(g, id, b) :: IsDone(state, b)
    ensures FinishOrder(g, state[id := Done], finish[id := finished], finished + 1)
  {
    assert forall a :: IsDone(state[id := Done], a) <==> a == id || IsDone(state, a);
  }

  lemma BackEdge(g: Graph, stack: seq<string>, next: string)
    requires Chain(g, stack) && next in stack && Edge(g, stack[|stack| - 1], next)
    ensures OnCycle(g, stack[|stack| - 1])
  {
    var j :| 0 <= j < |stack| && stack[j] == next;
    var path := stack[j..] + [next];
    SubChain(g, stack, j, |stack| - 1);
    assert stack[j..] == stack[j..|stack| - 1 + 1];
    forall k | 0 <= k < |path| - 1 ensures Edge(g, path[k], path[k + 1]) {
      if k < |path| - 2 { assert Edge(g, stack[j..][k], stack[j..][k + 1]); }
    }
    assert CyclePath(g, path);
    assert path[|path| - 2] == stack[|stack| - 1];
  }

  lemma PushKeeps(g: Graph, state: map<string, Mark>, stack: seq<string>, finish: map<string, nat>, finished: nat,
                  id: string)
    requires StackOf(g, state, stack) && FinishOrder(g, state, finish, finished) && id in g && id !in state
    requires stack != [] ==> Edge(g, stack[|stack| - 1], id)
    ensures StackOf(g, state[id := Visiting], stack + [id]) && FinishOrder(g, state[id := Visiting], finish, finished)
    ensures g.Keys - state[id := Visiting].Keys < g.Keys - state.Keys
  {
    Enter(g, state, stack, id);
    EnterKeepsFinish(g, state, finish, finished, id);
    assert id in g.Keys - state.Keys && id !in g.Keys - state[id := Visiting].Keys;
  }

  lemma PopKeeps(g: Graph, state: map<string, Mark>, stack: seq<string>, finish: map<string, nat>, finished: nat,
                 id: string)
    requires StackOf(g, state, stack + [id]) && FinishOrder(g, state, finish, finished) && id in g && id !in stack
    requires id in state && state[id].Visiting? && forall k | 0 <= k < |g[id]| :: IsDone(state, g[id][k])
    ensures StackOf(g, state[id := Done], stack)
    ensures FinishOrder(g, state[id := Done], finish[id := finished], finished + 1)
  {
    Leave(g, state, stack, id);
    LeaveFinishes(g, state, finish, finished, id);
  }

  /** Marks set before stay as they were. */
  ghost predicate Keeps(before: map<string, Mark>, state: map<string, Mark>) {
    forall a | a in before :: a in state && state[a] == before[a]
  }

  class Search {
    const adjacency: Graph
    var state: map<string, Mark>
    var cycleNode: Option<string>
    ghost var finish: map<string, nat>
    ghost var finished: nat

    ghost predicate Valid(stack: seq<string>) reads this {
      ClosedGraph(adjacency) && StackOf(adjacency, state, stack) && FinishOrder(adjacency, state, finish, finished)
    }

    constructor (g: Graph)
      requires ClosedGraph(g)
      ensures Valid([]) && adjacency == g && state == map[] && cycleNode == None
    {
      adjacency, state, cycleNode, finish, finished := g, map[], None, map[], 0;
    }

    /** Returns true as soon as an edge leads back onto the stack. */
    method Visit(id: string, ghost stack: seq<string>) returns (found: bool)
      requires Valid(stack) && id in adjacency && id !in state && cycleNode == None
      requires stack != [] ==> Edge(adjacency, stack[|stack| - 1], id)
      modifies this
      ensures found ==> cycleNode.Some? && OnCycle(adjacency, cycleNode.value)
      ensures !found ==> cycleNode == None && Valid(stack) && IsDone(state, id)
      ensures !found ==> Keeps(old(state), state)
      decreases adjacency.Keys - state.Keys, 0
    {
      PushKeeps(adjacency, state, stack, finish, finished, id);
      state := state[id := Visiting];
      found := VisitEdges(id, stack + [id]);
      if found { return true; }
      PopKeeps(adjacency, state, stack, finish, finished, id);
      state := state[id := Done];
      finish, finished := finish[id := finished], finished + 1;
    }

    /** The loop over the edges of the node on top of the stack. */
    method VisitEdges(id: string, ghost path: seq<string>) returns (found: bool)
      requires Valid(path) && path != [] && path[|path| - 1] == id && id in adjacency && cycleNode == None
      requires id in state && state[id] == Visiting
      modifies this
      ensures found ==> cycleNode.Some? && OnCycle(adjacency, cycleNode.value)
      ensures !found ==> cycleNode == None && Valid(path) && Keeps(old(state), state)
      ensures !found ==> forall k | 0 <= k < |adjacency[id]| :: IsDone(state, adjacency[id][k])
      decreases adjacency.Keys - state.Keys, 1
    {
      for i := 0 to |adjacency[id]|
        invariant cycleNode == None && Valid(path) && Keeps(old(state), state)
        invariant forall k | 0 <= k < i :: IsDone(state, adjacency[id][k])
      {
        var next := adjacency[id][i];
        assert Edge(adjacency, path[|path| - 1], next);
        if next in state && state[next].Visiting? {
          BackEdge(adjacency, path, next);
          cycleNode := Some(id);
          return true;
        }
        if next !in state {
          assert adjacency.Keys - state.Keys <= adjacency.Keys - old(state).Keys;
          var deeper := Visit(next, path);
          if deeper { return true; }
        }
      }
      found := false;
    }
  }

  /** Visits the ids in order and stops at the first cycle. It names an id exactly when the graph
      has a cycle, and that id lies on one. */
  method FindCycle(g: Graph, order: seq<string>) returns (cycleNode: Option<string>)
    requires ClosedGraph(g) && forall id :: id in g <==> id in order
    ensures cycleNode.Some? <==> Cyclic(g)
    ensures cycleNode.Some? ==> OnCycle(g, cycleNode.value)
  {
    var search := new Search(g);
    for i := 0 to |order|
      invariant search.adjacency == g && search.cycleNode == None && search.Valid([])
      invariant forall k | 0 <= k < i :: IsDone(search.state, order[k])
    {
      if order[i] !in search.state {
        var found := search.Visit(order[i], []);
        if found {
          return search.cycleNode;
        }
      }
    }
    forall a | a in g ensures IsDone(search.state, a) {
      var k :| 0 <= k < |order| && order[k] == a;
    }
    LayeringIsAcyclic(g, search.finish);
    cycleNode := None;
  }
}
