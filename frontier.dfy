/** The priority-queue frontier used by uniform-cost and A* search. Entries
    are kept in insertion order; a pop takes the entry of least priority and,
    among equal priorities, the one inserted first. (The stack and the queue
    of depth- and breadth-first search are plain sequences: push appends, a
    stack pops its last element, a queue its first.) */
module Frontier {

  datatype Entry<T> = Entry(item: T, priority: nat)

  /** The position a pop takes: a least priority, and no earlier entry has
      that priority. */
  function MinIndex<T>(q: seq<Entry<T>>): (k: nat)
    requires |q| > 0
    ensures k < |q|
    ensures forall i :: 0 <= i < |q| ==> q[k].priority <= q[i].priority
    ensures forall i :: 0 <= i < k ==> q[i].priority > q[k].priority
    decreases |q|
  {
    if |q| == 1 then 0
    else
      var k := MinIndex(q[..|q| - 1]);
      if q[|q| - 1].priority < q[k].priority then |q| - 1 else k
  }

  /** The queue without the entry at position k. */
  function RemoveAt<T>(q: seq<Entry<T>>, k: nat): (r: seq<Entry<T>>)
    requires k < |q|
    ensures |r| == |q| - 1
    ensures forall i :: 0 <= i < k ==> r[i] == q[i]
    ensures forall i :: k <= i < |r| ==> r[i] == q[i + 1]
  {
    q[..k] + q[k + 1..]
  }

  /** Removing an entry adds none. */
  lemma RemoveAtSubset<T>(q: seq<Entry<T>>, k: nat)
    requires k < |q|
    ensures forall e :: e in RemoveAt(q, k) ==> e in q
  {
    assert forall e :: e in q[..k] ==> e in q;
    assert forall e :: e in q[k + 1..] ==> e in q;
  }

  /** push: always a new entry, at the back of the insertion order. */
  function Push<T>(q: seq<Entry<T>>, item: T, priority: nat): (r: seq<Entry<T>>)
    ensures |r| == |q| + 1 && r[..|q|] == q && r[|q|] == Entry(item, priority)
  {
    q + [Entry(item, priority)]
  }

  /** update: if an equal item is queued with a priority no greater, nothing
      changes; if it is queued with a greater one, that entry takes the new
      priority and keeps its place in the insertion order; otherwise push. */
  function Update<T(==)>(q: seq<Entry<T>>, item: T, priority: nat): (r: seq<Entry<T>>)
    ensures |q| <= |r| <= |q| + 1
    ensures |r| == |q| <==> exists i :: 0 <= i < |q| && q[i].item == item
    decreases |q|
  {
    if q == [] then [Entry(item, priority)]
    else if q[0].item == item then
      if q[0].priority <= priority then q else [Entry(item, priority)] + q[1..]
    else [q[0]] + Update(q[1..], item, priority)
  }

  /** When the first equal item sits at position i, update either leaves the
      queue alone or lowers that entry's priority where it stands: every
      other entry keeps its place, so the insertion order is unchanged. */
  lemma {:induction false} UpdateInPlace<T>(q: seq<Entry<T>>, item: T, priority: nat, i: nat)
    requires i < |q| && q[i].item == item
    requires forall j :: 0 <= j < i ==> q[j].item != item
    ensures Update(q, item, priority) == if q[i].priority <= priority then q else q[i := Entry(item, priority)]
    decreases |q|
  {
    if i > 0 {
      UpdateInPlace(q[1..], item, priority, i - 1);
      assert q == [q[0]] + q[1..];
    }
  }

  /** Popping only the entry at the position that the priorities choose lets
      two queues pushed in step pop in step. */
  lemma {:induction false} MinIndexByPriorities<T, U>(q: seq<Entry<T>>, q': seq<Entry<U>>)
    requires |q| == |q'| > 0
    requires forall i :: 0 <= i < |q| ==> q[i].priority == q'[i].priority
    ensures MinIndex(q) == MinIndex(q')
    decreases |q|
  {
    if |q| > 1 {
      MinIndexByPriorities(q[..|q| - 1], q'[..|q'| - 1]);
    }
  }

  /** After update the offered item is queued with a priority no greater
      than the one offered. */
  lemma {:induction false} UpdateOffers<T>(q: seq<Entry<T>>, item: T, priority: nat)
    ensures exists e :: e in Update(q, item, priority) && e.item == item && e.priority <= priority
    decreases |q|
  {
    var r := Update(q, item, priority);
    if q == [] {
      assert r[0] in r;
    } else if q[0].item == item {
      assert r[0] in r;
    } else {
      UpdateOffers(q[1..], item, priority);
      var e :| e in Update(q[1..], item, priority) && e.item == item && e.priority <= priority;
      assert e in r;
    }
  }

  /** Update drops no entry except one it replaces by the same item at a
      lower priority. */
  lemma {:induction false} UpdateKeeps<T>(q: seq<Entry<T>>, item: T, priority: nat, e: Entry<T>)
    requires e in q
    ensures exists e' :: e' in Update(q, item, priority) && e'.item == e.item && e'.priority <= e.priority
    decreases |q|
  {
    var r := Update(q, item, priority);
    if e == q[0] {
      if q[0].item == item && q[0].priority > priority {
        assert r[0] in r;
      } else {
        assert r[0] == q[0];
        assert r[0] in r;
      }
    } else {
      assert e in q[1..];
      if q[0].item == item {
        if q[0].priority <= priority {
          assert e in r;
        } else {
          assert e in r[1..];
        }
      } else {
        UpdateKeeps(q[1..], item, priority, e);
        var e' :| e' in Update(q[1..], item, priority) && e'.item == e.item && e'.priority <= e.priority;
        assert e' in r;
      }
    }
  }

  /** Update adds nothing but the offered entry. */
  lemma {:induction false} UpdateAddsOnly<T>(q: seq<Entry<T>>, item: T, priority: nat)
    ensures forall e :: e in Update(q, item, priority) ==> e in q || e == Entry(item, priority)
    decreases |q|
  {
    if q != [] && q[0].item != item {
      UpdateAddsOnly(q[1..], item, priority);
      assert Update(q, item, priority) == [q[0]] + Update(q[1..], item, priority);
    }
  }

  /** With no equal item queued, update is push. */
  lemma {:induction false} UpdateIsPush<T>(q: seq<Entry<T>>, item: T, priority: nat)
    requires forall e :: e in q ==> e.item != item
    ensures Update(q, item, priority) == Push(q, item, priority)
    decreases |q|
  {
    if q != [] {
      assert q[0] in q;
      assert forall e :: e in q[1..] ==> e in q;
      UpdateIsPush(q[1..], item, priority);
      assert q == [q[0]] + q[1..];
    }
  }
}
