# Graph search strategies over a search problem

This project models `search.py` of a Pacman search assignment: the
`SearchProblem` interface and the four graph-search strategies built on it
(depth-first, breadth-first, uniform-cost and A*), together with
`nullHeuristic`. It proves what each strategy promises its caller.

A problem is a finite graph (`SearchProblems.Problem`):
- a start state;
- a set of goal states;
- for each state, the ordered list of its successor triples
  `(successor, action, stepCost)`.

States are integers, actions are strings and step costs are naturals.
`getCostOfActions` is modelled by `Follow`, which replays an action sequence
from the start and returns where it ends and the sum of its step costs, or
`None` when some action is not a legal move.

Each strategy is a method with a `while` loop over its own frontier, written
in the same steps as the Python code. The correctness arguments live in
ghost state:
- a log of expanded states;
- the cost at which each state was expanded;
- for breadth-first search, the path each state was enqueued with;
- for depth-first search, the order in which states were explored.

The frontier containers come from `util.py`, which is not part of this
model. They are modelled as sequences with the same pop discipline:
- a stack pops its last element;
- a queue pops its first element;
- a priority queue pops the entry of least priority, and among equal
  priorities the one inserted first (module `Frontier`);
- `update` lowers the priority of an equal queued item and keeps its place
  in the insertion order, or pushes the item when no equal item is queued.

What is proved, for every well-formed problem (`WellFormed`: no two
successor triples of one state share an action):
- **depthFirstSearch** returns `Some(path)` only when the path replays from
  the start to a goal, and returns `None` only when no goal is reachable.
- **breadthFirstSearch** returns a path to a goal with the fewest actions,
  or returns `[]` when no goal is reachable. It enqueues every state at most
  once.
- **uniformCostSearch** returns `Some(path)` only for a path of least total
  step cost, and returns `None` only when no goal is reachable. Every fringe
  entry's priority is `getCostOfActions` of the path it carries.
- **aStarSearch** always returns a path to a goal, or `[]` when none is
  reachable. With a consistent heuristic the path has least cost; a
  consistent heuristic never drops by more than a step's cost along an edge
  and is 0 at goals. The two priority queues stay paired: equal priorities
  and equal pop positions. The i-th path replays to the i-th state at the
  i-th accumulated cost. Each priority is that cost plus the heuristic,
  except the start entry, which sits at priority 0; with `nullHeuristic`
  every priority is exactly the cost.
- Depth-first, uniform-cost and A* never expand a state twice and never
  expand a goal. Every state they expand, and every state breadth-first
  search enqueues, is reachable from the start. When the start is a goal,
  every strategy returns the empty path without expanding anything.

## Model

| member | source | states |
|---|---|---|
| SearchProblems.StartState | search.py:32-36 | the start state is a state of the problem, reachable from the start, and it is exactly where the empty plan ends, at cost 0 |
| SearchProblems.StartIsGoal | search.py:38-44 | when the start passes the goal test, the empty plan is both a shortest and a cheapest path to a goal |
| SearchProblems.CostOfActions | search.py:57-63 | getCostOfActions is defined exactly for the sequences that replay as legal moves, and no prefix of such a sequence is illegal or costs more than the whole |
| SearchProblems.PrefixesCheaper | search.py:57-63 | every prefix of a legal sequence replays legally at a total cost no greater than the whole sequence's |
| SearchProblems.ReachedBy | search.py:57-63 | a sequence that replays from the start to a state shows that state reachable |
| SearchProblems.ReachableStep | search.py:46-55 | in a well-formed problem, every successor of a reachable state is reachable |
| SearchProblems.Step | search.py:46-55 | the move an action names from a state is one of that state's successor triples with that action, and there is none when no triple carries the action |
| SearchProblems.StepOfSuccessor | search.py:46-63 | in a well-formed problem, the action of a successor triple replays exactly that triple |
| SearchProblems.FirstIsUnique | search.py:46-63 | with distinct actions, looking an action up among the successor triples finds the triple that carries it |
| SearchProblems.FollowAppend | search.py:57-63 | the cost of a sequence extended by one action is the cost of its prefix plus the step that action makes from the prefix's end, and an illegal prefix or last action makes the whole sequence illegal |
| SearchProblems.FollowExtend | search.py:57-63 | a legal sequence followed by one legal step ends at that step's successor, at the summed cost |
| SearchProblems.ExtendBySuccessor | search.py:163-168 | extending a path that reaches a state by the action of one of its successor triples reaches that successor, at the path's cost plus the step cost |
| SearchProblems.CostOfReplay | search.py:57-63 | getCostOfActions of a legal sequence is the total step cost of its replay |
| SearchProblems.CostOfExtension | search.py:205-208 | getCostOfActions of the extended path is the popped path's cost plus the successor's step cost |
| SearchProblems.LastStep | search.py:57-63 | a non-empty legal sequence is a legal prefix followed by one successor triple of the prefix's end, and its cost is the prefix's cost plus that step's |
| SearchProblems.FollowPrepend | search.py:110-117 | prefixing a successor triple's action to a sequence replayed from that successor gives a legal sequence from the parent exactly when the original is legal, ending at the same state |
| SearchProblems.FollowInStates | search.py:46-55 | a replay from a known state ends in a known state |
| SearchProblems.SuccessorInStates | search.py:46-55 | every successor of a state is in the finite set of states of the problem |
| SearchProblems.FewerUnexplored | search.py:120-122 | exploring one more known state strictly decreases the number of known states left unexplored |
| SearchProblems.ClosedContainsReachable | search.py:134-135 | a set that holds a state and is closed under successors holds every state reachable from it |
| SearchProblems.ClosedWithoutGoal | search.py:134-135 | a set closed under successors that holds the start and no goal shows that no goal is reachable |
| SearchProblems.DistinctAppend | search.py:120-122 | adding a state that is not yet present to a list without repeats keeps it without repeats |
| SearchProblems.Reversed | search.py:116 | reversing keeps the number of actions and puts the k-th action from the end at position k |
| SearchProblems.ReversedAppend | search.py:113-116 | reversing the list after appending an action puts that action first |
| Frontier.Update | search.py:207-208 | update never shortens the queue and lengthens it by at most one; it keeps the length exactly when an equal item is already queued |
| Frontier.UpdateInPlace | search.py:207-208 | with an equal item queued, update leaves the queue unchanged when that entry's priority is no greater, and otherwise lowers the priority of the first such entry where it stands, every other entry keeping its place |
| Frontier.MinIndex | search.py:189 | the popped position holds a least priority, and no earlier entry has that priority |
| Frontier.RemoveAt | search.py:189 | popping removes exactly the entry at that position and keeps the order of the rest |
| Frontier.RemoveAtSubset | search.py:189 | popping adds no entry |
| Frontier.Push | search.py:287-290 | push appends exactly one entry after the existing ones |
| Frontier.MinIndexByPriorities | search.py:275-276 | two queues with equal priorities at every position pop the same position |
| Frontier.UpdateOffers | search.py:207-208 | after update the offered item is queued at a priority no greater than the offered one |
| Frontier.UpdateKeeps | search.py:207-208 | update keeps, for every queued entry, an entry with the same item at a priority no greater |
| Frontier.UpdateAddsOnly | search.py:207-208 | update adds no entry other than the offered one |
| Frontier.UpdateIsPush | search.py:207-208 | when no equal item is queued, update is push |
| Optimality.NullHeuristic | search.py:214-219 | nullHeuristic never overestimates: it is at most the cost of every legal sequence from the state to a goal |
| Optimality.NullIsConsistent | search.py:214-219 | a heuristic that is always 0 is consistent |
| Optimality.CoversDominated | search.py:207-208 | a frontier that keeps every entry at a priority no greater still covers what the old one covered |
| Optimality.UpdateDominates | search.py:207-208 | update keeps what the fringe covered, and covers the offered state at the offered priority |
| Optimality.PushDominates | search.py:287-290 | push keeps what the fringe covered, and covers the pushed state at its priority |
| Optimality.GrowKeeps | search.py:200-208 | growing the frontier keeps the crossing invariant and the successors covered so far |
| Optimality.PopKeeps | search.py:189-197 | popping an entry keeps the crossing invariant, except for the newly explored state whose successors are still to be pushed |
| Optimality.CoverNext | search.py:200-208 | once the next successor is covered, one more successor of the explored state is covered |
| Optimality.CoveredFinishes | search.py:200-208 | once all successors of the explored state are covered, the crossing invariant holds again in full |
| Optimality.FewerUnexploredKeys | search.py:195-197 | recording one more explored state strictly decreases the number of known states left unexplored |
| Optimality.CrossingBound | search.py:186-208 | every path from the start to an unexplored state has a fringe entry whose priority is at most the path's cost plus the heuristic of its end |
| Optimality.MinIsLowerBound | search.py:189-192 | the least priority on the fringe is a lower bound on the cost plus heuristic of every path leaving the explored region |
| Optimality.ExpandKeepsOptimal | search.py:195-197 | exploring a state at a cost that bounds every path to it keeps every explored cost optimal |
| Optimality.GoalPoppedIsCheapest | search.py:189-192 | a goal popped at the least priority is reached by a path of least total cost |
| Optimality.ExhaustedMeansUnreachable | search.py:210-211 | a fringe run empty under the crossing invariant, with no goal explored, means no goal is reachable |
| DepthFirst.Reconstruct | search.py:110-117 | walking the parent links back from a popped goal and reversing the collected actions gives a path that replays from the start and ends at exactly that goal node's state, and the empty path when the goal is the initial node |
| DepthFirst.ParentReachable | search.py:129-130 | the initial node and every node with a recorded parent hold a state reachable from the start, since the parent links lead back to the start |
| DepthFirst.InitialInvariant | search.py:96-102 | the stack holding only the initial node satisfies the loop invariant |
| DepthFirst.TopValid | search.py:104-106 | the top of the stack is the initial node or has a recorded parent |
| DepthFirst.SkipKeeps | search.py:119-120 | popping a node whose state is already explored keeps the loop invariant |
| DepthFirst.RankGrows | search.py:120-122 | ranking the newly explored state after all others keeps the parent links valid |
| DepthFirst.ExploreBookkeeping | search.py:120-122 | exploring a new state that is not a goal keeps the explored set, the expansion log and the no-goal-explored fact in step |
| DepthFirst.ExploreKeeps | search.py:120-122 | exploring the popped node's state keeps the invariant, except the closure of that state, and decreases the unexplored count |
| DepthFirst.ParentsGrow | search.py:129-130 | recording the popped node as the parent of a successor triple keeps every parent chain leading back to the initial node |
| DepthFirst.StackPush | search.py:131-132 | pushing a successor keeps the stack valid and covers that successor |
| DepthFirst.PushSuccessors | search.py:124-132 | after the successor loop, every successor of an explored state is explored or on the stack, and every stack node has a valid parent chain |
| DepthFirst.ExpandNode | search.py:119-132 | one pass over a non-goal node keeps the loop invariant, and either explores a new state or shrinks the stack |
| DepthFirst.Exhausted | search.py:134-135 | an empty stack means no goal is reachable |
| DepthFirst.DepthFirstSearch | search.py:77-135 | Some(path) replays from the start to a goal; None only when no goal is reachable; a goal start gives Some([]) with nothing expanded; no state is expanded twice, no goal is expanded and every expanded state is reachable from the start |
| BreadthFirst.InitialInvariant | search.py:148-152 | the queues holding only the start with the empty path satisfy the loop invariant |
| BreadthFirst.Shallow | search.py:154-168 | every state reached by fewer actions than the head's path was already popped, with a path no longer than that reaching sequence |
| BreadthFirst.GoalShortest | search.py:159-161 | a goal at the head of the queue carries a path with the fewest actions among all paths to a goal |
| BreadthFirst.LayoutPush | search.py:164-168 | enqueueing a new state with a path that reaches it keeps both queues the unpopped part of the explored list and of the path log |
| BreadthFirst.LayoutAppend | search.py:163-168 | enqueueing an unexplored successor with the popped path extended by its action keeps the queues paired, their paths replaying to their states |
| BreadthFirst.LevelsAppend | search.py:167-168 | a path one action longer than the popped one keeps the enqueued paths in order of length |
| BreadthFirst.EnqueuedAppend | search.py:164-168 | enqueueing more keeps every earlier state enqueued |
| BreadthFirst.ClosedBelowAppend | search.py:164-168 | enqueueing more keeps the successors of every popped state enqueued within one more action |
| BreadthFirst.PushedAppend | search.py:164-168 | enqueueing the next successor extends the successors handled so far by one |
| BreadthFirst.SkipKeeps | search.py:164 | a successor already explored was enqueued with a path at most one action longer than the popped one |
| BreadthFirst.PopKeeps | search.py:156-157 | popping both queues stays in step with the explored list and the path log, and the popped state is not a goal |
| BreadthFirst.FinishKeeps | search.py:163-168 | once every successor is handled, the loop invariant holds with the next state at the head |
| BreadthFirst.NoGoalBelowAppend | search.py:159-161 | enqueueing more keeps every popped state a non-goal |
| BreadthFirst.ExpandFront | search.py:154-168 | one pass over a non-goal head keeps the loop invariant, and either marks a new state or shrinks the queue |
| BreadthFirst.Exhausted | search.py:170-171 | empty queues mean no goal is reachable |
| BreadthFirst.LayoutReachable | search.py:163-168 | every state in the explored list is reachable from the start, by the path it was enqueued with |
| BreadthFirst.BreadthFirstSearch | search.py:138-171 | the result is a shortest path to a goal, or [] when no goal is reachable; a goal start gives [] with only the start enqueued; the start is enqueued first, no state is enqueued twice and every enqueued state is reachable from the start |
| UniformCost.UpdateKeepsSound | search.py:207-208 | offering an entry whose path replays to its state at its priority keeps every fringe priority equal to getCostOfActions of its path |
| UniformCost.OfferSound | search.py:205-208 | offering a successor with the extended path, at that path's cost, keeps the fringe sound |
| UniformCost.OfferStep | search.py:200-208 | offering an unexplored successor covers it and keeps what the fringe covered |
| UniformCost.PushSuccessors | search.py:199-208 | after the successor loop the fringe is still sound and covers every edge out of the explored region |
| UniformCost.SkipKeeps | search.py:194-195 | popping an entry whose state is already explored keeps the loop invariant |
| UniformCost.ExploreOptimal | search.py:195-197 | the state of the least entry is explored at a cost no path to it beats |
| UniformCost.ExploreKeeps | search.py:195-197 | exploring the popped state keeps the bookkeeping and leaves only its successors uncovered; its path replays to it at the explored cost |
| UniformCost.ExpandPopped | search.py:186-208 | one pass over a non-goal least entry keeps the loop invariant, and either explores a new state or shrinks the fringe |
| UniformCost.InitialInvariant | search.py:181-184 | the fringe holding only the start entry at priority 0 satisfies the loop invariant |
| UniformCost.GoalFound | search.py:189-192 | a goal popped as the least entry carries a path of least total cost |
| UniformCost.Exhausted | search.py:210-211 | an empty fringe means no goal is reachable |
| UniformCost.UniformCostSearch | search.py:174-211 | Some(path) is a cheapest path to a goal; None only when no goal is reachable; a goal start gives Some([]) with nothing expanded; no state is expanded twice, no goal is expanded and every expanded state is reachable from the start |
| AStar.NullPriorityIsCost | search.py:214-219 | with nullHeuristic every fringe priority equals the accumulated cost of its entry |
| AStar.PairedRemove | search.py:275-276 | popping the same position from both queues keeps them paired |
| AStar.PairedPush | search.py:287-290 | pushing an arrival and a path that replays to it, at cost plus heuristic, keeps the queues paired |
| AStar.PairedPushSuccessor | search.py:284-290 | pushing a successor with the summed cost and the extended path keeps the queues paired |
| AStar.PushStep | search.py:284-290 | pushing the next successor covers it and keeps what the fringe covered |
| AStar.InitialInvariant | search.py:268-271 | both queues holding only the start, at priority 0 with cost 0 and the empty path, satisfy the loop invariant |
| AStar.FreeIsCheapest | search.py:270-271 | a goal reached at cost 0 is reached at least cost |
| AStar.FreeKeepsOptimal | search.py:270-271 | exploring a state at cost 0 keeps every explored cost optimal |
| AStar.GoalFound | search.py:278-279 | a popped goal's path replays to it; with a consistent heuristic it is a cheapest path to a goal |
| AStar.SkipKeeps | search.py:281 | popping an entry whose state is already explored keeps the loop invariant |
| AStar.ExploreOptimal | search.py:281-282 | with a consistent heuristic, the state of the least entry is explored at a cost no path to it beats |
| AStar.ExploreKeeps | search.py:281-282 | exploring the popped state keeps the bookkeeping and the pairing, and the popped path replays to the popped state and cost |
| AStar.PushAllSuccessors | search.py:284-290 | after the successor loop the queues are still paired and the fringe covers every edge out of the explored region |
| AStar.ExpandPopped | search.py:273-290 | one pass over a non-goal least entry keeps the loop invariant, and either explores a new state or shrinks the fringe |
| AStar.Exhausted | search.py:292 | empty queues mean no goal is reachable |
| AStar.AStarSearch | search.py:261-292 | the result replays to a goal or is [] when no goal is reachable; with a consistent heuristic it is a cheapest path; a goal start gives [] with nothing expanded; no state is expanded twice, no goal is expanded and every expanded state is reachable from the start |
| AStar.AStarSearchNull | search.py:214-222 | with the default nullHeuristic the result is a cheapest path to a goal, or [] when none is reachable |

## Left out

- `tinyMazeSearch` is left out. It returns a fixed move list built from `game.Directions`, which is not part of this model, and has no logic.
- The older version of `aStarSearch`, which is commented out in the source, is left out.
- The module-level aliases `bfs`, `dfs`, `astar` and `ucs` are left out. They are plain names for the four functions.
- `util.Stack`, `util.Queue` and `util.PriorityQueue` are not modelled as heaps. `util.py` is not part of this model. Each is a sequence with the same pop discipline; among equal priorities the first inserted entry pops first.
- `SearchProblem` is modelled as a finite explicit graph, not an abstract class. Its `raiseNotDefined` bodies are not modelled. Infinite state spaces are excluded, because the termination measure counts unexplored states of the finite graph.
- Every strategy requires `WellFormed`: the actions of one state's successor triples are distinct. `getCostOfActions` takes only actions, so an action must name a single move. This holds for Pacman's position search problems, where each direction names one move.
- `getCostOfActions` on a sequence with an illegal move returns `None` here. The interface only asks callers to pass legal moves, and the searches only ever pass legal ones.
- Costs and heuristic values are naturals. Floating-point costs and negative heuristics are not modelled.
- A heuristic is a total function of the state and the problem. A heuristic that keeps its own mutable state is not modelled.
- Python hashing and tuple equality are modelled as datatype equality on states, actions and nodes.
- AStar.AStarSearch: with a heuristic that is not consistent, the contract promises only a path to a goal, not a cheapest one. The search checks `explored` when it pops, so such a heuristic can make it return a dearer path.
- AStar.AStarSearchNull: only the least cost of the result is proved, which it shares with uniform-cost search. That the two expand states in the same order and return the same path is not proved.
- DepthFirst.DepthFirstSearch: the contract says nothing about which path is returned beyond that it reaches a goal. Depth-first order makes no length or cost promise.
