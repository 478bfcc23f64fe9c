/** depthFirstSearch: a stack of nodes, an explored set checked when a node is
    popped, and a parent dictionary from each pushed successor triple to the
    node it was pushed from; the path to a popped goal is read back along the
    parent links and reversed. */
module DepthFirst {
  import opened SearchProblems

  /** A stack element: the start as (start, (), ()), or a successor triple
      (successor, action, stepCost). */
  datatype Node = Init(state: State) | Via(state: State, action: Action, stepCost: nat)

  function NodeOf(tr: Transition): Node { Via(tr.succ, tr.action, tr.stepCost) }

  /** Some node on the stack holds x. */
  ghost predicate OnStack(stack: seq<Node>, x: State)
  {
    exists n :: n in stack && n.state == x
  }

  /** Every recorded parent is a node whose state was explored and has the
      child's triple among its successors, and a parent that is not the start
      node has a parent of its own explored earlier (the ghost rank is the
      order of exploration). */
  ghost predicate ParentsValid(p: Problem, parent: map<Node, Node>, rank: map<State, nat>)
  {
    forall t :: t in parent ==>
      && t.Via?
      && parent[t].state in rank
      && Transition(t.state, t.action, t.stepCost) in Successors(p, parent[t].state)
      && (parent[t] == Init(p.start) ||
          (parent[t] in parent && parent[parent[t]].state in rank && rank[parent[parent[t]].state] < rank[parent[t].state]))
  }

  /** Every node on the stack is the start node or has a recorded parent. */
  ghost predicate StackValid(p: Problem, stack: seq<Node>, parent: map<Node, Node>)
  {
    forall n :: n in stack ==> (n == Init(p.start) || n in parent) && n.state in States(p)
  }

  /** The explored set matches the ghost rank and the ghost log of expansion
      order, and holds no goal. */
  ghost predicate Bookkeeping(p: Problem, explored: set<State>, rank: map<State, nat>, expanded: seq<State>)
  {
    && (forall s :: s in explored <==> s in rank) && (forall s :: s in rank ==> rank[s] < |expanded|)
    && explored <= States(p)
    && Distinct(expanded) && (forall s :: s in expanded <==> s in explored)
    && (forall s :: s in explored ==> !IsGoal(p, s))
  }

  /** Every successor of an explored state outside `pending` is explored or
      waits on the stack. */
  ghost predicate ClosedBut(p: Problem, stack: seq<Node>, explored: set<State>, pending: set<State>)
  {
    forall u, tr :: u in explored && u !in pending && tr in Successors(p, u) ==>
      tr.succ in explored || OnStack(stack, tr.succ)
  }

  /** What holds each time the main loop of depthFirstSearch tests the stack. */
  ghost predicate Invariant(p: Problem, stack: seq<Node>, explored: set<State>, parent: map<Node, Node>,
                            rank: map<State, nat>, expanded: seq<State>)
  {
    && StackValid(p, stack, parent)
    && ParentsValid(p, parent, rank)
    && Bookkeeping(p, explored, rank, expanded)
    && (p.start in explored || OnStack(stack, p.start))
    && ClosedBut(p, stack, explored, {})
  }

  /** The node whose state s was explored last: its parent, if any, was
      explored before it. */
  ghost predicate Newest(p: Problem, node: Node, parent: map<Node, Node>, rank: map<State, nat>, s: State)
  {
    && node.state == s && s in rank
    && (forall x :: x in rank ==> rank[x] <= rank[s])
    && (node == Init(p.start) || (node in parent && parent[node].state in rank && rank[parent[node].state] < rank[s]))
  }

  /** The first j successors of s are explored or on the stack. */
  ghost predicate Pushed(p: Problem, stack: seq<Node>, explored: set<State>, s: State, j: nat)
  {
    forall i :: 0 <= i < j && i < |Successors(p, s)| ==>
      Successors(p, s)[i].succ in explored || OnStack(stack, Successors(p, s)[i].succ)
  }

  /** How far a node is from the start node along parent links, measured by
      exploration order. */
  ghost function Potential(p: Problem, parent: map<Node, Node>, rank: map<State, nat>, n: Node): nat
  {
    if n == Init(p.start) then 0
    else if n in parent && parent[n].state in rank then rank[parent[n].state] + 1
    else 0
  }

  /** Walking back from a goal node along parent links, collecting actions,
      then reversing them, gives a path from the start to that goal. */
  method Reconstruct(p: Problem, parent: map<Node, Node>, goal: Node, ghost rank: map<State, nat>)
    returns (path: seq<Action>)
    requires WellFormed(p) && ParentsValid(p, parent, rank)
    requires goal == Init(p.start) || goal in parent
    requires IsGoal(p, goal.state)
    ensures ReachesGoal(p, path) && Follow(p, p.start, path).value.state == goal.state
    ensures goal == Init(p.start) ==> path == []
  {
    var node := goal;
    var collected: seq<Action> := [];
    while node != Init(p.start)
      invariant node == Init(p.start) || node in parent
      invariant Follow(p, node.state, Reversed(collected)).Some?
      invariant Follow(p, node.state, Reversed(collected)).value.state == goal.state
      invariant goal == Init(p.start) ==> collected == []
      decreases Potential(p, parent, rank, node)
    {
      var up := parent[node];
      ReversedAppend(collected, node.action);
      FollowPrepend(p, up.state, Transition(node.state, node.action, node.stepCost), Reversed(collected));
      collected := collected + [node.action];
      node := up;
    }
    path := Reversed(collected);
  }

  /** The start node and every node with a recorded parent hold a state
      reachable from the start: the parent links lead back to the start. */
  lemma {:induction false} ParentReachable(p: Problem, parent: map<Node, Node>, rank: map<State, nat>, n: Node)
    requires WellFormed(p) && ParentsValid(p, parent, rank)
    requires n == Init(p.start) || n in parent
    ensures Reachable(p, n.state)
    decreases Potential(p, parent, rank, n)
  {
    if n == Init(p.start) {
      ReachedBy(p, [], p.start);
    } else {
      var up := parent[n];
      ParentReachable(p, parent, rank, up);
      ReachableStep(p, up.state, Transition(n.state, n.action, n.stepCost));
    }
  }

  lemma InitialInvariant(p: Problem)
    ensures Invariant(p, [Init(p.start)], {}, map[], map[], [])
  {
    assert Init(p.start) in [Init(p.start)];
  }

  /** Popping a node whose state is already explored keeps the invariant. */
  lemma SkipKeeps(p: Problem, stack: seq<Node>, node: Node, explored: set<State>, parent: map<Node, Node>,
                  rank: map<State, nat>, expanded: seq<State>)
    requires node.state in explored
    requires Invariant(p, stack + [node], explored, parent, rank, expanded)
    ensures Invariant(p, stack, explored, parent, rank, expanded)
  {
    forall u, tr | u in explored && tr in Successors(p, u) && tr.succ !in explored
      ensures OnStack(stack, tr.succ)
    {
      var n :| n in stack + [node] && n.state == tr.succ;
    }
    if p.start !in explored {
      var n :| n in stack + [node] && n.state == p.start;
    }
  }

  /** Ranking a newly explored state after all others keeps the parent
      links valid. */
  lemma RankGrows(p: Problem, parent: map<Node, Node>, rank: map<State, nat>, s: State, n: nat)
    requires ParentsValid(p, parent, rank) && s !in rank
    requires forall x :: x in rank ==> rank[x] < n
    ensures ParentsValid(p, parent, rank[s := n])
    ensures forall x :: x in rank ==> rank[s := n][x] <= n
  {
  }

  /** Exploring a new state that is not a goal keeps the bookkeeping. */
  lemma ExploreBookkeeping(p: Problem, explored: set<State>, rank: map<State, nat>, expanded: seq<State>, s: State)
    requires Bookkeeping(p, explored, rank, expanded)
    requires s !in explored && s in States(p) && !IsGoal(p, s)
    ensures Bookkeeping(p, explored + {s}, rank[s := |expanded|], expanded + [s])
  {
    DistinctAppend(expanded, s);
  }

  /** Exploring the popped node's state keeps everything but the closure of
      that state, whose successors are about to be pushed. */
  lemma ExploreKeeps(p: Problem, stack: seq<Node>, node: Node, explored: set<State>, parent: map<Node, Node>,
                     rank: map<State, nat>, expanded: seq<State>,
                     explored': set<State>, rank': map<State, nat>, expanded': seq<State>)
    requires node.state !in explored && !IsGoal(p, node.state)
    requires Invariant(p, stack + [node], explored, parent, rank, expanded)
    requires explored' == explored + {node.state} && rank' == rank[node.state := |expanded|]
    requires expanded' == expanded + [node.state]
    ensures StackValid(p, stack, parent) && ParentsValid(p, parent, rank')
    ensures Bookkeeping(p, explored', rank', expanded')
    ensures p.start in explored' || OnStack(stack, p.start)
    ensures ClosedBut(p, stack, explored', {node.state})
    ensures Newest(p, node, parent, rank', node.state)
    ensures |States(p) - explored'| < |States(p) - explored|
  {
    assert node in stack + [node];
    ExploreBookkeeping(p, explored, rank, expanded, node.state);
    FewerUnexplored(States(p), explored, node.state);
    RankGrows(p, parent, rank, node.state, |expanded|);
    forall u, tr | u in explored && tr in Successors(p, u) && tr.succ !in explored'
      ensures OnStack(stack, tr.succ)
    {
      var n :| n in stack + [node] && n.state == tr.succ;
    }
    if p.start !in explored' {
      var n :| n in stack + [node] && n.state == p.start;
    }
  }

  /** Recording the newest explored node as the parent of a successor triple
      whose state is not explored keeps the parent links valid. */
  lemma ParentsGrow(p: Problem, parent: map<Node, Node>, rank: map<State, nat>, explored: set<State>,
                    node: Node, s: State, tr: Transition)
    requires (forall x :: x in explored <==> x in rank) && tr.succ !in explored
    requires ParentsValid(p, parent, rank) && Newest(p, node, parent, rank, s)
    requires tr in Successors(p, s)
    ensures ParentsValid(p, parent[NodeOf(tr) := node], rank)
    ensures Newest(p, node, parent[NodeOf(tr) := node], rank, s)
  {
    var v := NodeOf(tr);
    forall t | t in parent && t != v
      ensures parent[t] != v
    {
      assert parent[t].state in rank;
    }
  }

  /** Pushing the node of the j-th successor of s, with a parent recorded
      for it, keeps the stack valid and the frontier closed. */
  lemma StackPush(p: Problem, stack: seq<Node>, parent: map<Node, Node>, explored: set<State>,
                  s: State, j: nat, v: Node, node: Node)
    requires j < |Successors(p, s)| && v == NodeOf(Successors(p, s)[j])
    requires StackValid(p, stack, parent)
    requires p.start in explored || OnStack(stack, p.start)
    requires ClosedBut(p, stack, explored, {s}) && Pushed(p, stack, explored, s, j)
    ensures StackValid(p, stack + [v], parent[v := node])
    ensures p.start in explored || OnStack(stack + [v], p.start)
    ensures ClosedBut(p, stack + [v], explored, {s}) && Pushed(p, stack + [v], explored, s, j + 1)
  {
    SuccessorInStates(p, s, Successors(p, s)[j]);
    assert v in stack + [v];
    assert forall n :: n in stack ==> n in stack + [v];
  }

  /** The loop over getSuccessors of a newly explored state: each successor
      not yet explored gets the popped node as its parent and is pushed. */
  method PushSuccessors(p: Problem, stack: seq<Node>, node: Node, explored: set<State>, parent: map<Node, Node>,
                        ghost rank: map<State, nat>)
    returns (stack': seq<Node>, parent': map<Node, Node>)
    requires (forall x :: x in explored <==> x in rank) && node.state in explored
    requires StackValid(p, stack, parent) && ParentsValid(p, parent, rank)
    requires p.start in explored || OnStack(stack, p.start)
    requires ClosedBut(p, stack, explored, {node.state})
    requires Newest(p, node, parent, rank, node.state)
    ensures StackValid(p, stack', parent') && ParentsValid(p, parent', rank)
    ensures p.start in explored || OnStack(stack', p.start)
    ensures ClosedBut(p, stack', explored, {})
  {
    stack', parent' := stack, parent;
    var s := node.state;
    var succs := Successors(p, s);
    var j := 0;
    while j < |succs|
      invariant 0 <= j <= |succs|
      invariant StackValid(p, stack', parent') && ParentsValid(p, parent', rank)
      invariant p.start in explored || OnStack(stack', p.start)
      invariant ClosedBut(p, stack', explored, {s}) && Pushed(p, stack', explored, s, j)
      invariant Newest(p, node, parent', rank, s)
    {
      var tr := succs[j];
      if tr.succ !in explored {
        ParentsGrow(p, parent', rank, explored, node, s, tr);
        StackPush(p, stack', parent', explored, s, j, NodeOf(tr), node);
        parent' := parent'[NodeOf(tr) := node];
        stack' := stack' + [NodeOf(tr)];
      }
      j := j + 1;
    }
    forall u, tr | u in explored && tr in Successors(p, u)
      ensures tr.succ in explored || OnStack(stack', tr.succ)
    {
      if u == s {
        var i :| 0 <= i < |succs| && succs[i] == tr;
      }
    }
  }

  /** One pass of the main loop once the popped node is known not to be a
      goal: if its state is new, explore it and push its successors. */
  method ExpandNode(p: Problem, stack: seq<Node>, node: Node, explored: set<State>, parent: map<Node, Node>,
                    ghost rank: map<State, nat>, ghost expanded: seq<State>)
    returns (stack': seq<Node>, explored': set<State>, parent': map<Node, Node>,
             ghost rank': map<State, nat>, ghost expanded': seq<State>)
    requires !IsGoal(p, node.state)
    requires Invariant(p, stack + [node], explored, parent, rank, expanded)
    ensures Invariant(p, stack', explored', parent', rank', expanded')
    ensures |States(p) - explored'| < |States(p) - explored| || (explored' == explored && |stack'| == |stack|)
    ensures expanded' == expanded || expanded' == expanded + [node.state]
  {
    if node.state in explored {
      SkipKeeps(p, stack, node, explored, parent, rank, expanded);
      return stack, explored, parent, rank, expanded;
    }
    explored' := explored + {node.state};
    rank' := rank[node.state := |expanded|];
    expanded' := expanded + [node.state];
    ExploreKeeps(p, stack, node, explored, parent, rank, expanded, explored', rank', expanded');
    stack', parent' := PushSuccessors(p, stack, node, explored', parent, rank');
  }

  /** The top of the stack is the start node or has a recorded parent. */
  lemma TopValid(p: Problem, stack: seq<Node>, explored: set<State>, parent: map<Node, Node>,
                 rank: map<State, nat>, expanded: seq<State>)
    requires stack != [] && Invariant(p, stack, explored, parent, rank, expanded)
    ensures stack == stack[..|stack| - 1] + [stack[|stack| - 1]]
    ensures Invariant(p, stack[..|stack| - 1] + [stack[|stack| - 1]], explored, parent, rank, expanded)
    ensures ParentsValid(p, parent, rank)
    ensures stack[|stack| - 1] == Init(p.start) || stack[|stack| - 1] in parent
  {
    assert stack == stack[..|stack| - 1] + [stack[|stack| - 1]];
    assert stack[|stack| - 1] in stack;
  }

  /** A stack run empty leaves the explored set closed under successors,
      holding the start and no goal. */
  lemma Exhausted(p: Problem, explored: set<State>, parent: map<Node, Node>, rank: map<State, nat>, expanded: seq<State>)
    requires Invariant(p, [], explored, parent, rank, expanded)
    ensures NoGoalReachable(p)
  {
    ClosedWithoutGoal(p, explored);
  }

  method DepthFirstSearch(p: Problem) returns (r: Option<seq<Action>>, ghost expanded: seq<State>)
    requires WellFormed(p)
    ensures r.Some? ==> ReachesGoal(p, r.value)
    ensures r.None? ==> NoGoalReachable(p)
    ensures IsGoal(p, p.start) ==> r == Some([]) && expanded == []
    ensures Distinct(expanded) && forall s :: s in expanded ==> !IsGoal(p, s)
    ensures forall s :: s in expanded ==> Reachable(p, s)
  {
    var init := Init(StartState(p));
    var stack := [init];
    var explored: set<State> := {};
    var parent: map<Node, Node> := map[];
    ghost var rank: map<State, nat> := map[];
    expanded := [];
    InitialInvariant(p);
    while stack != []
      invariant Invariant(p, stack, explored, parent, rank, expanded)
      invariant IsGoal(p, p.start) ==> expanded == [] && stack == [init]
      invariant forall s :: s in expanded ==> Reachable(p, s)
      decreases |States(p) - explored|, |stack|
    {
      var node := stack[|stack| - 1];
      TopValid(p, stack, explored, parent, rank, expanded);
      ParentReachable(p, parent, rank, node);
      stack := stack[..|stack| - 1];
      if IsGoal(p, node.state) {
        var path := Reconstruct(p, parent, node, rank);
        return Some(path), expanded;
      }
      stack, explored, parent, rank, expanded := ExpandNode(p, stack, node, explored, parent, rank, expanded);
    }
    Exhausted(p, explored, parent, rank, expanded);
    return None, expanded;
  }
}
