/** Why a priority frontier yields least-cost paths. The explored states and
    the cost at which each was expanded form `best`; the frontier "covers" every
    state that an edge out of the explored region leads to, with an entry whose
    priority is no more than the cost through that edge plus the heuristic.
    With a consistent heuristic (zero for uniform-cost search) the least
    priority on the frontier is then a lower bound on every path that leaves
    the explored region, and so the first goal popped is reached at least cost. */
module Optimality {
  import opened SearchProblems
  import opened Frontier

  /** heuristic(state, problem) */
  type Heuristic = (State, Problem) -> nat

  /** nullHeuristic: estimates every remaining cost as zero, which never
      overestimates the cost of a path from s to a goal. */
  function NullHeuristic(s: State, p: Problem): (r: nat)
    ensures forall acts :: Follow(p, s, acts).Some? && IsGoal(p, Follow(p, s, acts).value.state) ==>
      r <= Follow(p, s, acts).value.cost
  {
    0
  }

  /** The heuristic never drops by more than the step cost along an edge and
      is zero at goal states. */
  ghost predicate Consistent(p: Problem, h: Heuristic)
  {
    && (forall s, tr :: tr in Successors(p, s) ==> h(s, p) <= tr.stepCost + h(tr.succ, p))
    && (forall s :: IsGoal(p, s) ==> h(s, p) == 0)
  }

  /** Some frontier entry for state x has priority at most bound. */
  ghost predicate Covers<T>(q: seq<Entry<T>>, stateOf: T -> State, x: State, bound: int)
  {
    exists e :: e in q && stateOf(e.item) == x && e.priority <= bound
  }

  /** The crossing invariant, except for the explored states in `pending`
      whose successors are still being pushed. */
  ghost predicate CrossingBut<T>(p: Problem, h: Heuristic, q: seq<Entry<T>>, stateOf: T -> State,
                                 best: map<State, nat>, pending: set<State>)
  {
    && (p.start !in best ==> Covers(q, stateOf, p.start, h(p.start, p)))
    && forall s, tr :: s in best && s !in pending && tr in Successors(p, s) && tr.succ !in best ==>
         Covers(q, stateOf, tr.succ, best[s] + tr.stepCost + h(tr.succ, p))
  }

  ghost predicate Crossing<T>(p: Problem, h: Heuristic, q: seq<Entry<T>>, stateOf: T -> State, best: map<State, nat>)
  {
    CrossingBut(p, h, q, stateOf, best, {})
  }

  /** The first n successors of the explored state s are covered. */
  ghost predicate SuccessorsCovered<T>(p: Problem, h: Heuristic, q: seq<Entry<T>>, stateOf: T -> State,
                                       best: map<State, nat>, s: State, n: nat)
    requires s in best
  {
    forall i :: 0 <= i < n && i < |Successors(p, s)| && Successors(p, s)[i].succ !in best ==>
      Covers(q, stateOf, Successors(p, s)[i].succ, best[s] + Successors(p, s)[i].stepCost + h(Successors(p, s)[i].succ, p))
  }

  /** Every explored state was expanded at a cost no path to it beats. */
  ghost predicate Optimal(p: Problem, best: map<State, nat>)
  {
    forall acts :: Follow(p, p.start, acts).Some? && Follow(p, p.start, acts).value.state in best ==>
      best[Follow(p, p.start, acts).value.state] <= Follow(p, p.start, acts).value.cost
  }

  /** m is no more than the cost plus heuristic of any path from the start to
      a state outside the explored region. */
  ghost predicate LowerBound(p: Problem, h: Heuristic, best: map<State, nat>, m: int)
  {
    forall acts :: Follow(p, p.start, acts).Some? && Follow(p, p.start, acts).value.state !in best ==>
      m <= Follow(p, p.start, acts).value.cost + h(Follow(p, p.start, acts).value.state, p)
  }

  /** q' keeps, for every entry of q, an entry for the same state at a
      priority no greater (push and update both do). */
  ghost predicate Dominates<T>(q': seq<Entry<T>>, q: seq<Entry<T>>, stateOf: T -> State)
  {
    forall e :: e in q ==> exists e' :: e' in q' && stateOf(e'.item) == stateOf(e.item) && e'.priority <= e.priority
  }

  /** The trivial heuristic is consistent. */
  lemma NullIsConsistent(p: Problem, h: Heuristic)
    requires forall s :: h(s, p) == 0
    ensures Consistent(p, h)
  {
  }

  lemma CoversDominated<T>(q': seq<Entry<T>>, q: seq<Entry<T>>, stateOf: T -> State, x: State, bound: int)
    requires Dominates(q', q, stateOf)
    requires Covers(q, stateOf, x, bound)
    ensures Covers(q', stateOf, x, bound)
  {
    var e :| e in q && stateOf(e.item) == x && e.priority <= bound;
    var e' :| e' in q' && stateOf(e'.item) == stateOf(e.item) && e'.priority <= e.priority;
  }

  /** Growing the frontier keeps what it covers. */
  lemma GrowKeeps<T>(p: Problem, h: Heuristic, q': seq<Entry<T>>, q: seq<Entry<T>>, stateOf: T -> State,
                     best: map<State, nat>, pending: set<State>, s: State, n: nat)
    requires Dominates(q', q, stateOf)
    requires CrossingBut(p, h, q, stateOf, best, pending)
    requires s in best && SuccessorsCovered(p, h, q, stateOf, best, s, n)
    ensures CrossingBut(p, h, q', stateOf, best, pending)
    ensures SuccessorsCovered(p, h, q', stateOf, best, s, n)
  {
    if p.start !in best {
      CoversDominated(q', q, stateOf, p.start, h(p.start, p));
    }
    forall u, tr | u in best && u !in pending && tr in Successors(p, u) && tr.succ !in best
      ensures Covers(q', stateOf, tr.succ, best[u] + tr.stepCost + h(tr.succ, p))
    {
      CoversDominated(q', q, stateOf, tr.succ, best[u] + tr.stepCost + h(tr.succ, p));
    }
    forall i | 0 <= i < n && i < |Successors(p, s)| && Successors(p, s)[i].succ !in best
      ensures Covers(q', stateOf, Successors(p, s)[i].succ, best[s] + Successors(p, s)[i].stepCost + h(Successors(p, s)[i].succ, p))
    {
      var tr := Successors(p, s)[i];
      CoversDominated(q', q, stateOf, tr.succ, best[s] + tr.stepCost + h(tr.succ, p));
    }
  }

  /** Removing the popped entry keeps the invariant once its state counts as
      explored; a newly explored state is pending until its successors are pushed. */
  lemma PopKeeps<T>(p: Problem, h: Heuristic, q: seq<Entry<T>>, stateOf: T -> State,
                    best: map<State, nat>, best': map<State, nat>, pending: set<State>, k: nat)
    requires k < |q|
    requires Crossing(p, h, q, stateOf, best)
    requires stateOf(q[k].item) in best'
    requires forall x :: x in best ==> x in best' && best'[x] == best[x]
    requires forall x :: x in best' && x !in best ==> x in pending
    ensures CrossingBut(p, h, RemoveAt(q, k), stateOf, best', pending)
  {
    var q' := RemoveAt(q, k);
    forall x, bound | Covers(q, stateOf, x, bound) && x !in best'
      ensures Covers(q', stateOf, x, bound)
    {
      var e :| e in q && stateOf(e.item) == x && e.priority <= bound;
      var i :| 0 <= i < |q| && q[i] == e;
      if i < k {
        assert q'[i] == e;
      } else {
        assert i != k;
        assert q'[i - 1] == e;
      }
    }
  }

  /** Covering one more successor of s. */
  lemma CoverNext<T>(p: Problem, h: Heuristic, q: seq<Entry<T>>, stateOf: T -> State,
                     best: map<State, nat>, s: State, n: nat)
    requires s in best && n < |Successors(p, s)|
    requires SuccessorsCovered(p, h, q, stateOf, best, s, n)
    requires Successors(p, s)[n].succ !in best ==>
      Covers(q, stateOf, Successors(p, s)[n].succ, best[s] + Successors(p, s)[n].stepCost + h(Successors(p, s)[n].succ, p))
    ensures SuccessorsCovered(p, h, q, stateOf, best, s, n + 1)
  {
  }

  /** Update keeps every state covered at least as well, and covers the
      offered item at the offered priority. */
  lemma UpdateDominates<T>(q: seq<Entry<T>>, stateOf: T -> State, item: T, priority: nat)
    ensures Dominates(Update(q, item, priority), q, stateOf)
    ensures Covers(Update(q, item, priority), stateOf, stateOf(item), priority)
  {
    UpdateOffers(q, item, priority);
    forall e | e in q
      ensures exists e' :: e' in Update(q, item, priority) && stateOf(e'.item) == stateOf(e.item) && e'.priority <= e.priority
    {
      UpdateKeeps(q, item, priority, e);
    }
  }

  /** Pushing keeps every entry. */
  lemma PushDominates<T>(q: seq<Entry<T>>, stateOf: T -> State, item: T, priority: nat)
    ensures Dominates(Push(q, item, priority), q, stateOf)
    ensures Covers(Push(q, item, priority), stateOf, stateOf(item), priority)
  {
    var r := Push(q, item, priority);
    assert r[|q|] in r;
    forall e | e in q
      ensures exists e' :: e' in r && stateOf(e'.item) == stateOf(e.item) && e'.priority <= e.priority
    {
      var i :| 0 <= i < |q| && q[i] == e;
      assert r[i] == e;
    }
  }

  /** Exploring one more known state leaves fewer known states unexplored. */
  lemma FewerUnexploredKeys(known: set<State>, best: map<State, nat>, s: State, g: nat)
    requires s in known && s !in best
    ensures |known - best[s := g].Keys| < |known - best.Keys|
  {
    assert best[s := g].Keys == best.Keys + {s};
    FewerUnexplored(known, best.Keys, s);
  }

  /** Once every successor of the pending state is covered, nothing is pending. */
  lemma CoveredFinishes<T>(p: Problem, h: Heuristic, q: seq<Entry<T>>, stateOf: T -> State,
                           best: map<State, nat>, pending: set<State>, s: State)
    requires pending <= {s} && s in best
    requires CrossingBut(p, h, q, stateOf, best, pending)
    requires SuccessorsCovered(p, h, q, stateOf, best, s, |Successors(p, s)|)
    ensures Crossing(p, h, q, stateOf, best)
  {
    forall u, tr | u in best && tr in Successors(p, u) && tr.succ !in best
      ensures Covers(q, stateOf, tr.succ, best[u] + tr.stepCost + h(tr.succ, p))
    {
      if u == s && s in pending {
        var i :| 0 <= i < |Successors(p, s)| && Successors(p, s)[i] == tr;
      }
    }
  }

  /** The crossing lemma: any path from the start to a state outside the
      explored region has some frontier entry at a priority no greater than
      its cost plus the heuristic of where it ends. */
  lemma {:induction false} CrossingBound<T>(p: Problem, h: Heuristic, q: seq<Entry<T>>, stateOf: T -> State,
                                            best: map<State, nat>, acts: seq<Action>)
    requires Consistent(p, h) && Crossing(p, h, q, stateOf, best) && Optimal(p, best)
    requires Follow(p, p.start, acts).Some? && Follow(p, p.start, acts).value.state !in best
    ensures exists e :: e in q && e.priority <= Follow(p, p.start, acts).value.cost + h(Follow(p, p.start, acts).value.state, p)
    decreases |acts|
  {
    var a := Follow(p, p.start, acts).value;
    if acts == [] {
      assert a == Arrival(p.start, 0);
      var e :| e in q && stateOf(e.item) == p.start && e.priority <= h(p.start, p);
    } else {
      var pre, b, tr := LastStep(p, acts);
      if b.state in best {
        var e :| e in q && stateOf(e.item) == tr.succ && e.priority <= best[b.state] + tr.stepCost + h(tr.succ, p);
        assert best[b.state] <= b.cost;
      } else {
        CrossingBound(p, h, q, stateOf, best, pre);
        var e :| e in q && e.priority <= b.cost + h(b.state, p);
        assert h(b.state, p) <= tr.stepCost + h(tr.succ, p);
      }
    }
  }

  /** The least priority on the frontier is a lower bound on every path that
      leaves the explored region. */
  lemma MinIsLowerBound<T>(p: Problem, h: Heuristic, q: seq<Entry<T>>, stateOf: T -> State,
                           best: map<State, nat>, m: int)
    requires Consistent(p, h) && Crossing(p, h, q, stateOf, best) && Optimal(p, best)
    requires forall e :: e in q ==> m <= e.priority
    ensures LowerBound(p, h, best, m)
  {
    forall acts | Follow(p, p.start, acts).Some? && Follow(p, p.start, acts).value.state !in best
      ensures m <= Follow(p, p.start, acts).value.cost + h(Follow(p, p.start, acts).value.state, p)
    {
      CrossingBound(p, h, q, stateOf, best, acts);
    }
  }

  /** Expanding a state at a cost that bounds every path to it keeps every
      explored cost optimal. */
  lemma ExpandKeepsOptimal(p: Problem, h: Heuristic, best: map<State, nat>, s: State, g: nat)
    requires Optimal(p, best) && s !in best
    requires LowerBound(p, h, best, g + h(s, p))
    ensures Optimal(p, best[s := g])
  {
    forall acts | Follow(p, p.start, acts).Some? && Follow(p, p.start, acts).value.state in best[s := g]
      ensures best[s := g][Follow(p, p.start, acts).value.state] <= Follow(p, p.start, acts).value.cost
    {
    }
  }

  /** A goal popped at least priority is reached at least cost. */
  lemma GoalPoppedIsCheapest(p: Problem, h: Heuristic, best: map<State, nat>, path: seq<Action>, g: nat)
    requires Consistent(p, h)
    requires forall s :: s in best ==> !IsGoal(p, s)
    requires ReachesGoal(p, path) && Follow(p, p.start, path).value.cost == g
    requires LowerBound(p, h, best, g + h(Follow(p, p.start, path).value.state, p))
    ensures Cheapest(p, path)
  {
    forall acts | ReachesGoal(p, acts)
      ensures Follow(p, p.start, path).value.cost <= Follow(p, p.start, acts).value.cost
    {
    }
  }

  /** A frontier that has run empty leaves an explored region closed under
      successors; holding no goal, nothing reachable is a goal. */
  lemma ExhaustedMeansUnreachable<T>(p: Problem, h: Heuristic, stateOf: T -> State, best: map<State, nat>)
    requires Crossing(p, h, [], stateOf, best)
    requires forall s :: s in best ==> !IsGoal(p, s)
    ensures NoGoalReachable(p)
  {
    ClosedWithoutGoal(p, best.Keys);
  }
}
