/** breadthFirstSearch: two first-in first-out queues pushed in step, one of
    states and one of the paths to them, and an explored list to which a
    state is added when it is enqueued; the first goal popped is returned
    with its path. */
module BreadthFirst {
  import opened SearchProblems

  /** x was enqueued with a path of at most d actions. */
  ghost predicate EnqueuedWithin(explored: seq<State>, allPaths: seq<seq<Action>>, x: State, d: int)
  {
    exists m :: 0 <= m < |explored| && m < |allPaths| && explored[m] == x && |allPaths[m]| <= d
  }

  /** The queues are the part of the explored list (and of the ghost log of
      the path each state was enqueued with) from the head on; the start comes
      first with the empty path, every logged path reaches its state, and no
      state is enqueued twice. */
  ghost predicate Layout(p: Problem, fringe: seq<State>, paths: seq<seq<Action>>,
                         explored: seq<State>, allPaths: seq<seq<Action>>, hd: nat, seen: set<State>)
  {
    && |explored| == |allPaths| && 0 < |explored| && hd <= |explored|
    && fringe == explored[hd..] && paths == allPaths[hd..]
    && explored[0] == p.start && allPaths[0] == []
    && Distinct(explored)
    && (forall i :: 0 <= i < |explored| ==> Reaches(p, allPaths[i], explored[i]))
    && (forall x :: x in seen <==> x in explored) && seen <= States(p)
  }

  /** Paths are enqueued in order of length. */
  ghost predicate Monotone(allPaths: seq<seq<Action>>)
  {
    forall i, j :: 0 <= i <= j < |allPaths| ==> |allPaths[i]| <= |allPaths[j]|
  }

  /** No enqueued path is longer than d + 1. */
  ghost predicate Window(allPaths: seq<seq<Action>>, d: int)
  {
    forall i :: 0 <= i < |allPaths| ==> |allPaths[i]| <= d + 1
  }

  /** Every successor of the first n enqueued states was enqueued with a
      path at most one longer. */
  ghost predicate ClosedBelow(p: Problem, explored: seq<State>, allPaths: seq<seq<Action>>, n: nat)
  {
    forall i, tr :: 0 <= i < n && i < |explored| && i < |allPaths| && tr in Successors(p, explored[i]) ==>
      EnqueuedWithin(explored, allPaths, tr.succ, |allPaths[i]| + 1)
  }

  /** None of the first n enqueued states is a goal. */
  ghost predicate NoGoalBelow(p: Problem, explored: seq<State>, n: nat)
  {
    forall i :: 0 <= i < n && i < |explored| ==> !IsGoal(p, explored[i])
  }

  /** What holds each time the main loop of breadthFirstSearch tests the
      fringe; hd counts the states popped so far. */
  ghost predicate Invariant(p: Problem, fringe: seq<State>, paths: seq<seq<Action>>,
                            explored: seq<State>, allPaths: seq<seq<Action>>, hd: nat, seen: set<State>)
  {
    && Layout(p, fringe, paths, explored, allPaths, hd, seen)
    && Monotone(allPaths)
    && (hd < |allPaths| ==> Window(allPaths, |allPaths[hd]|))
    && ClosedBelow(p, explored, allPaths, hd)
    && NoGoalBelow(p, explored, hd)
  }

  /** The first j successors of the popped state were enqueued with a path
      of at most d + 1 actions. */
  ghost predicate PushedUpTo(p: Problem, explored: seq<State>, allPaths: seq<seq<Action>>, s: State, d: int, j: nat)
  {
    forall k :: 0 <= k < j && k < |Successors(p, s)| ==> EnqueuedWithin(explored, allPaths, Successors(p, s)[k].succ, d + 1)
  }

  lemma InitialInvariant(p: Problem)
    ensures Invariant(p, [p.start], [[]], [p.start], [[]], 0, {p.start})
  {
  }

  /** Every state reached by fewer actions than the head's path was already
      popped, with a path no longer. */
  lemma {:induction false} Shallow(p: Problem, explored: seq<State>, allPaths: seq<seq<Action>>, hd: nat, acts: seq<Action>)
    requires |explored| == |allPaths| && hd < |explored|
    requires explored[0] == p.start && allPaths[0] == []
    requires Monotone(allPaths) && ClosedBelow(p, explored, allPaths, hd)
    requires Follow(p, p.start, acts).Some? && |acts| < |allPaths[hd]|
    ensures exists i :: 0 <= i < hd && explored[i] == Follow(p, p.start, acts).value.state && |allPaths[i]| <= |acts|
    decreases |acts|
  {
    if acts == [] {
      assert 0 < hd;
    } else {
      var pre, b, tr := LastStep(p, acts);
      Shallow(p, explored, allPaths, hd, pre);
      var i :| 0 <= i < hd && explored[i] == b.state && |allPaths[i]| <= |pre|;
      var m :| 0 <= m < |explored| && m < |allPaths| && explored[m] == tr.succ && |allPaths[m]| <= |allPaths[i]| + 1;
    }
  }

  /** The path of a goal at the head of the queue is a shortest path to a goal. */
  lemma GoalShortest(p: Problem, fringe: seq<State>, paths: seq<seq<Action>>,
                     explored: seq<State>, allPaths: seq<seq<Action>>, hd: nat, seen: set<State>)
    requires Invariant(p, fringe, paths, explored, allPaths, hd, seen)
    requires fringe != [] && IsGoal(p, fringe[0])
    ensures Shortest(p, paths[0])
  {
    assert fringe[0] == explored[hd] && paths[0] == allPaths[hd];
    forall acts | ReachesGoal(p, acts)
      ensures |allPaths[hd]| <= |acts|
    {
      if |acts| < |allPaths[hd]| {
        Shallow(p, explored, allPaths, hd, acts);
      }
    }
  }

  /** Enqueueing a new known state with a path that reaches it keeps the layout. */
  lemma LayoutPush(p: Problem, fringe: seq<State>, paths: seq<seq<Action>>,
                   explored: seq<State>, allPaths: seq<seq<Action>>, hd: nat, seen: set<State>,
                   x: State, path: seq<Action>)
    requires Layout(p, fringe, paths, explored, allPaths, hd, seen)
    requires Reaches(p, path, x) && x !in explored && x in States(p)
    ensures Layout(p, fringe + [x], paths + [path], explored + [x], allPaths + [path], hd, seen + {x})
  {
    var explored', allPaths' := explored + [x], allPaths + [path];
    assert explored'[hd..] == fringe + [x];
    assert allPaths'[hd..] == paths + [path];
    forall i | 0 <= i < |explored'|
      ensures Reaches(p, allPaths'[i], explored'[i])
    {
      if i < |explored| {
        assert explored'[i] == explored[i] && allPaths'[i] == allPaths[i];
      }
    }
  }

  /** Enqueueing a successor of the popped state, not yet in the explored
      list, with the popped state's path extended by its action. */
  lemma LayoutAppend(p: Problem, fringe: seq<State>, paths: seq<seq<Action>>,
                     explored: seq<State>, allPaths: seq<seq<Action>>, h: nat, seen: set<State>,
                     path: seq<Action>, tr: Transition)
    requires WellFormed(p)
    requires Layout(p, fringe, paths, explored, allPaths, h + 1, seen) && h < |explored|
    requires allPaths[h] == path
    requires tr in Successors(p, explored[h]) && tr.succ !in explored
    ensures Layout(p, fringe + [tr.succ], paths + [path + [tr.action]], explored + [tr.succ],
                   allPaths + [path + [tr.action]], h + 1, seen + {tr.succ})
    ensures (explored + [tr.succ])[h] == explored[h] && (allPaths + [path + [tr.action]])[h] == path
  {
    ExtendBySuccessor(p, path, Follow(p, p.start, path).value, tr);
    SuccessorInStates(p, explored[h], tr);
    LayoutPush(p, fringe, paths, explored, allPaths, h + 1, seen, tr.succ, path + [tr.action]);
  }

  /** A path one longer than the popped state's keeps the log in order of
      length and within the window. */
  lemma LevelsAppend(allPaths: seq<seq<Action>>, path: seq<Action>, a: Action)
    requires Monotone(allPaths) && Window(allPaths, |path|)
    ensures Monotone(allPaths + [path + [a]]) && Window(allPaths + [path + [a]], |path|)
  {
  }

  /** Enqueueing more keeps an earlier witness. */
  lemma EnqueuedAppend(explored: seq<State>, allPaths: seq<seq<Action>>, y: State, e: int, x: State, path: seq<Action>)
    requires EnqueuedWithin(explored, allPaths, y, e)
    ensures EnqueuedWithin(explored + [x], allPaths + [path], y, e)
  {
    var m :| 0 <= m < |explored| && m < |allPaths| && explored[m] == y && |allPaths[m]| <= e;
    assert (explored + [x])[m] == y && (allPaths + [path])[m] == allPaths[m];
  }

  lemma ClosedBelowAppend(p: Problem, explored: seq<State>, allPaths: seq<seq<Action>>, h: nat, x: State, path: seq<Action>)
    requires |explored| == |allPaths| && h <= |explored| && ClosedBelow(p, explored, allPaths, h)
    ensures ClosedBelow(p, explored + [x], allPaths + [path], h)
  {
    var explored', allPaths' := explored + [x], allPaths + [path];
    forall i, tr | 0 <= i < h && i < |explored'| && i < |allPaths'| && tr in Successors(p, explored'[i])
      ensures EnqueuedWithin(explored', allPaths', tr.succ, |allPaths'[i]| + 1)
    {
      assert explored'[i] == explored[i] && allPaths'[i] == allPaths[i];
      EnqueuedAppend(explored, allPaths, tr.succ, |allPaths[i]| + 1, x, path);
    }
  }

  /** Enqueueing the j-th successor of s with a path of at most d + 1
      actions. */
  lemma PushedAppend(p: Problem, explored: seq<State>, allPaths: seq<seq<Action>>,
                     s: State, d: int, j: nat, x: State, path: seq<Action>)
    requires |explored| == |allPaths| && PushedUpTo(p, explored, allPaths, s, d, j)
    requires j < |Successors(p, s)| && Successors(p, s)[j].succ == x && |path| <= d + 1
    ensures PushedUpTo(p, explored + [x], allPaths + [path], s, d, j + 1)
  {
    var explored', allPaths' := explored + [x], allPaths + [path];
    forall k | 0 <= k < j && k < |Successors(p, s)|
      ensures EnqueuedWithin(explored', allPaths', Successors(p, s)[k].succ, d + 1)
    {
      EnqueuedAppend(explored, allPaths, Successors(p, s)[k].succ, d + 1, x, path);
    }
    assert explored'[|explored|] == x && allPaths'[|explored|] == path;
    assert EnqueuedWithin(explored', allPaths', x, d + 1);
  }

  /** A successor already enqueued was enqueued with a path at most one
      longer than the popped state's. */
  lemma SkipKeeps(p: Problem, explored: seq<State>, allPaths: seq<seq<Action>>, s: State, path: seq<Action>, j: nat)
    requires |explored| == |allPaths| && Window(allPaths, |path|)
    requires j < |Successors(p, s)| && Successors(p, s)[j].succ in explored
    requires PushedUpTo(p, explored, allPaths, s, |path|, j)
    ensures PushedUpTo(p, explored, allPaths, s, |path|, j + 1)
  {
    var m :| 0 <= m < |explored| && explored[m] == Successors(p, s)[j].succ;
    assert EnqueuedWithin(explored, allPaths, Successors(p, s)[j].succ, |path| + 1);
  }

  /** Popping the head of both queues. */
  lemma PopKeeps(p: Problem, fringe: seq<State>, paths: seq<seq<Action>>,
                 explored: seq<State>, allPaths: seq<seq<Action>>, hd: nat, seen: set<State>)
    requires Invariant(p, fringe, paths, explored, allPaths, hd, seen)
    requires fringe != [] && !IsGoal(p, fringe[0])
    ensures Layout(p, fringe[1..], paths[1..], explored, allPaths, hd + 1, seen) && hd < |explored|
    ensures explored[hd] == fringe[0] && allPaths[hd] == paths[0]
    ensures Monotone(allPaths) && Window(allPaths, |paths[0]|)
    ensures ClosedBelow(p, explored, allPaths, hd) && NoGoalBelow(p, explored, hd + 1)
  {
    assert explored[hd..][1..] == explored[hd + 1..];
    assert allPaths[hd..][1..] == allPaths[hd + 1..];
  }

  /** Once all successors of the popped state are enqueued, the invariant
      holds with the next state at the head. */
  lemma FinishKeeps(p: Problem, fringe: seq<State>, paths: seq<seq<Action>>,
                    explored: seq<State>, allPaths: seq<seq<Action>>, h: nat, seen: set<State>, path: seq<Action>)
    requires Layout(p, fringe, paths, explored, allPaths, h + 1, seen) && h < |explored|
    requires allPaths[h] == path
    requires Monotone(allPaths) && Window(allPaths, |path|)
    requires PushedUpTo(p, explored, allPaths, explored[h], |path|, |Successors(p, explored[h])|)
    requires ClosedBelow(p, explored, allPaths, h) && NoGoalBelow(p, explored, h + 1)
    ensures Invariant(p, fringe, paths, explored, allPaths, h + 1, seen)
  {
    forall i, tr | 0 <= i < h + 1 && i < |explored| && tr in Successors(p, explored[i])
      ensures EnqueuedWithin(explored, allPaths, tr.succ, |allPaths[i]| + 1)
    {
      if i == h {
        var k :| 0 <= k < |Successors(p, explored[h])| && Successors(p, explored[h])[k] == tr;
      }
    }
    if h + 1 < |allPaths| {
      assert |allPaths[h]| <= |allPaths[h + 1]|;
    }
  }

  /** One pass of the main loop once the head is known not to be a goal: pop
      both queues and enqueue every successor not yet in the explored list,
      adding it to that list, with the extended path. */
  method ExpandFront(p: Problem, fringe: seq<State>, paths: seq<seq<Action>>, explored: seq<State>,
                     ghost allPaths: seq<seq<Action>>, ghost hd: nat, ghost seen: set<State>)
    returns (fringe': seq<State>, paths': seq<seq<Action>>, explored': seq<State>,
             ghost allPaths': seq<seq<Action>>, ghost hd': nat, ghost seen': set<State>)
    requires WellFormed(p)
    requires Invariant(p, fringe, paths, explored, allPaths, hd, seen)
    requires fringe != [] && !IsGoal(p, fringe[0])
    ensures Invariant(p, fringe', paths', explored', allPaths', hd', seen')
    ensures |States(p) - seen'| < |States(p) - seen| || (seen' == seen && |fringe'| < |fringe|)
  {
    var state, path := fringe[0], paths[0];
    PopKeeps(p, fringe, paths, explored, allPaths, hd, seen);
    fringe', paths' := fringe[1..], paths[1..];
    explored', allPaths', hd', seen' := explored, allPaths, hd + 1, seen;
    var succs := Successors(p, state);
    var j := 0;
    while j < |succs|
      invariant 0 <= j <= |succs|
      invariant Layout(p, fringe', paths', explored', allPaths', hd + 1, seen') && hd < |explored'|
      invariant explored'[hd] == state && allPaths'[hd] == path
      invariant Monotone(allPaths') && Window(allPaths', |path|)
      invariant PushedUpTo(p, explored', allPaths', state, |path|, j)
      invariant ClosedBelow(p, explored', allPaths', hd) && NoGoalBelow(p, explored', hd + 1)
      invariant seen <= seen' && (|States(p) - seen'| < |States(p) - seen| || (seen' == seen && |fringe'| < |fringe|))
    {
      var tr := succs[j];
      if tr.succ !in explored' {
        LayoutAppend(p, fringe', paths', explored', allPaths', hd, seen', path, tr);
        LevelsAppend(allPaths', path, tr.action);
        ClosedBelowAppend(p, explored', allPaths', hd, tr.succ, path + [tr.action]);
        PushedAppend(p, explored', allPaths', state, |path|, j, tr.succ, path + [tr.action]);
        FewerUnexplored(States(p), seen', tr.succ);
        NoGoalBelowAppend(p, explored', hd + 1, tr.succ);
        fringe', paths' := fringe' + [tr.succ], paths' + [path + [tr.action]];
        explored', allPaths' := explored' + [tr.succ], allPaths' + [path + [tr.action]];
        seen' := seen' + {tr.succ};
      } else {
        SkipKeeps(p, explored', allPaths', state, path, j);
      }
      j := j + 1;
    }
    FinishKeeps(p, fringe', paths', explored', allPaths', hd, seen', path);
  }

  lemma NoGoalBelowAppend(p: Problem, explored: seq<State>, n: nat, x: State)
    requires NoGoalBelow(p, explored, n) && n <= |explored|
    ensures NoGoalBelow(p, explored + [x], n)
  {
  }

  /** A fringe run empty leaves the explored list closed under successors,
      holding the start and no goal. */
  lemma Exhausted(p: Problem, explored: seq<State>, allPaths: seq<seq<Action>>, hd: nat, seen: set<State>)
    requires Invariant(p, [], [], explored, allPaths, hd, seen)
    ensures NoGoalReachable(p)
  {
    assert hd == |explored|;
    forall u, tr | u in seen && tr in Successors(p, u)
      ensures tr.succ in seen
    {
      var i :| 0 <= i < |explored| && explored[i] == u;
      var m :| 0 <= m < |explored| && m < |allPaths| && explored[m] == tr.succ && |allPaths[m]| <= |allPaths[i]| + 1;
    }
    assert explored[0] in seen;
    ClosedWithoutGoal(p, seen);
  }

  /** Every enqueued state is reachable: its logged path leads to it. */
  lemma LayoutReachable(p: Problem, fringe: seq<State>, paths: seq<seq<Action>>,
                        explored: seq<State>, allPaths: seq<seq<Action>>, hd: nat, seen: set<State>)
    requires Layout(p, fringe, paths, explored, allPaths, hd, seen)
    ensures forall s :: s in explored ==> Reachable(p, s)
  {
    forall s | s in explored
      ensures Reachable(p, s)
    {
      var i :| 0 <= i < |explored| && explored[i] == s;
      ReachedBy(p, allPaths[i], s);
    }
  }

  method BreadthFirstSearch(p: Problem) returns (r: seq<Action>, ghost enqueued: seq<State>)
    requires WellFormed(p)
    ensures Shortest(p, r) || (r == [] && NoGoalReachable(p))
    ensures IsGoal(p, p.start) ==> r == [] && enqueued == [p.start]
    ensures Distinct(enqueued) && enqueued != [] && enqueued[0] == p.start
    ensures forall s :: s in enqueued ==> Reachable(p, s)
  {
    var fringe: seq<State> := [StartState(p)];
    var paths: seq<seq<Action>> := [[]];
    var explored: seq<State> := [StartState(p)];
    ghost var allPaths: seq<seq<Action>> := [[]];
    ghost var hd: nat := 0;
    ghost var seen: set<State> := {p.start};
    InitialInvariant(p);
    while fringe != []
      invariant Invariant(p, fringe, paths, explored, allPaths, hd, seen)
      invariant IsGoal(p, p.start) ==> fringe == [p.start] && paths == [[]] && explored == [p.start]
      decreases |States(p) - seen|, |fringe|
    {
      var state, path := fringe[0], paths[0];
      if IsGoal(p, state) {
        GoalShortest(p, fringe, paths, explored, allPaths, hd, seen);
        LayoutReachable(p, fringe, paths, explored, allPaths, hd, seen);
        return path, explored;
      }
      fringe, paths, explored, allPaths, hd, seen := ExpandFront(p, fringe, paths, explored, allPaths, hd, seen);
    }
    Exhausted(p, explored, allPaths, hd, seen);
    LayoutReachable(p, fringe, paths, explored, allPaths, hd, seen);
    return [], explored;
  }
}
