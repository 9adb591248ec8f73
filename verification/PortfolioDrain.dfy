/** Starting and completing until the queue is empty sorts it stably by descending priority. */
module PortfolioDrain {
  import opened Portfolio

  /** The tasks in the order the scheduler would start them. */
  function DrainOrder(q: seq<ScheduledTask>): (r: seq<ScheduledTask>)
    ensures |r| == |q|
    decreases |q|
  {
    if q == [] then [] else [q[BestIndex(q)]] + DrainOrder(RemoveAt(q, BestIndex(q)))
  }

  ghost predicate Descending(q: seq<ScheduledTask>) {
    forall i, j :: 0 <= i < j < |q| ==> q[i].priority >= q[j].priority
  }

  /** The tasks of one priority, in their order. */
  function Level(q: seq<ScheduledTask>, priority: int): seq<ScheduledTask> {
    if q == [] then []
    else
      var rest, last := Level(q[..|q| - 1], priority), q[|q| - 1];
      if last.priority == priority then rest + [last] else rest
  }

  lemma {:induction false} LevelMembers(q: seq<ScheduledTask>, v: int, t: ScheduledTask)
    ensures t in Level(q, v) <==> t in q && t.priority == v
  {
    if q != [] {
      assert q == q[..|q| - 1] + [q[|q| - 1]];
      LevelMembers(q[..|q| - 1], v, t);
    }
  }

  /** A stable sort: descending, and each priority's tasks in the order they were in. */
  ghost predicate IsStableSort(sorted: seq<ScheduledTask>, q: seq<ScheduledTask>) {
    Descending(sorted) && forall v :: Level(sorted, v) == Level(q, v)
  }

  lemma {:induction false} LevelConcat(a: seq<ScheduledTask>, b: seq<ScheduledTask>, v: int)
    ensures Level(a + b, v) == Level(a, v) + Level(b, v)
  {
    if b == [] {
      assert a + b == a;
    } else {
      var n := |b| - 1;
      assert (a + b)[..|a + b| - 1] == a + b[..n];
      LevelConcat(a, b[..n], v);
    }
  }

  lemma {:induction false} NoLevel(q: seq<ScheduledTask>, v: int)
    requires forall i :: 0 <= i < |q| ==> q[i].priority != v
    ensures Level(q, v) == []
  {
    if q != [] {
      NoLevel(q[..|q| - 1], v);
    }
  }

  lemma LevelOfParts(front: seq<ScheduledTask>, t: ScheduledTask, back: seq<ScheduledTask>, v: int)
    requires v == t.priority ==> Level(front, v) == []
    ensures Level(front + [t] + back, v) == Level([t], v) + Level(front + back, v)
  {
    LevelConcat(front + [t], back, v);
    LevelConcat(front, [t], v);
    LevelConcat(front, back, v);
    var f, m, b := Level(front, v), Level([t], v), Level(back, v);
    if v == t.priority {
      assert f + m + b == m + (f + b);
    } else {
      NoLevel([t], v);
      assert f + m + b == m + (f + b);
    }
  }

  /** Taking the best task out takes it from the front of its level, as no earlier task has its priority. */
  lemma LevelOfBest(q: seq<ScheduledTask>, v: int)
    requires q != []
    ensures Level(q, v) == Level([q[BestIndex(q)]], v) + Level(RemoveAt(q, BestIndex(q)), v)
  {
    var i := BestIndex(q);
    if v == q[i].priority {
      NoLevel(q[..i], v);
    }
    assert q == q[..i] + [q[i]] + q[i + 1..];
    LevelOfParts(q[..i], q[i], q[i + 1..], v);
  }

  lemma {:induction false} DrainKeepsLevels(q: seq<ScheduledTask>, v: int)
    ensures Level(DrainOrder(q), v) == Level(q, v)
    decreases |q|
  {
    if q != [] {
      var i := BestIndex(q);
      DrainKeepsLevels(RemoveAt(q, i), v);
      LevelOfBest(q, v);
      LevelConcat([q[i]], DrainOrder(RemoveAt(q, i)), v);
    }
  }

  lemma {:induction false} DrainDescends(q: seq<ScheduledTask>)
    ensures Descending(DrainOrder(q))
    decreases |q|
  {
    if q != [] {
      var i := BestIndex(q);
      var rest := DrainOrder(RemoveAt(q, i));
      DrainDescends(RemoveAt(q, i));
      forall k | 0 <= k < |rest|
        ensures rest[k].priority <= q[i].priority
      {
        DrainKeepsLevels(RemoveAt(q, i), rest[k].priority);
        LevelMembers(rest, rest[k].priority, rest[k]);
        LevelMembers(RemoveAt(q, i), rest[k].priority, rest[k]);
      }
    }
  }

  /** Draining yields a stable sort of the queue. */
  lemma DrainIsStableSort(q: seq<ScheduledTask>)
    ensures IsStableSort(DrainOrder(q), q)
  {
    DrainDescends(q);
    forall v
      ensures Level(DrainOrder(q), v) == Level(q, v)
    {
      DrainKeepsLevels(q, v);
    }
  }

  lemma StableSortHeads(a: seq<ScheduledTask>, b: seq<ScheduledTask>)
    requires a != [] && IsStableSort(a, b) && Descending(b)
    ensures b != [] && a[0] == b[0]
  {
    var v := a[0].priority;
    LevelMembers(a, v, a[0]);
    LevelMembers(b, v, a[0]);
    var w := b[0].priority;
    LevelMembers(b, w, b[0]);
    LevelMembers(a, w, b[0]);
    assert b[0] in a && a[0] in b;
    assert v == w;
    LevelOfHead(a);
    LevelOfHead(b);
    assert Level(a, v)[0] == a[0] && Level(b, v)[0] == b[0];
  }

  lemma LevelOfHead(a: seq<ScheduledTask>)
    requires a != []
    ensures forall v :: Level(a, v) == (if v == a[0].priority then [a[0]] else []) + Level(a[1..], v)
  {
    forall v
      ensures Level(a, v) == (if v == a[0].priority then [a[0]] else []) + Level(a[1..], v)
    {
      assert a == [a[0]] + a[1..];
      LevelConcat([a[0]], a[1..], v);
    }
  }

  lemma SomeLevel(q: seq<ScheduledTask>)
    requires q != []
    ensures Level(q, q[0].priority) != []
  {
    LevelMembers(q, q[0].priority, q[0]);
  }

  /** There is only one stable sort, so the drain order is the stable sort. */
  lemma {:induction false} StableSortIsUnique(a: seq<ScheduledTask>, b: seq<ScheduledTask>)
    requires IsStableSort(a, b) && Descending(b)
    ensures a == b
  {
    if a == [] {
      if b != [] {
        SomeLevel(b);
        assert false;
      }
    } else {
      StableSortHeads(a, b);
      LevelOfHead(a);
      LevelOfHead(b);
      forall v
        ensures Level(a[1..], v) == Level(b[1..], v)
      {
        var head := if v == a[0].priority then [a[0]] else [];
        assert Level(a, v) == head + Level(a[1..], v) == head + Level(b[1..], v);
        assert (head + Level(a[1..], v))[|head|..] == Level(a[1..], v);
        assert (head + Level(b[1..], v))[|head|..] == Level(b[1..], v);
      }
      StableSortIsUnique(a[1..], b[1..]);
    }
  }

  // ---------------------------------------------------------------- the operations that drain

  /** The state after starting the best task and completing it. */
  function AfterTurn(s: State, now: int): State
    requires CanStart(s)
  {
    Complete(StartNext(s, now), NextRecord(s, now).taskId)
  }

  /** Start a task and complete it, once for each given time: the records `start_next` returns on the way. */
  function DrainRecords(s: State, times: seq<int>): seq<ScheduledTask>
    decreases |times|
  {
    if times == [] || !CanStart(s) then []
    else [NextRecord(s, times[0])] + DrainRecords(AfterTurn(s, times[0]), times[1..])
  }

  /** A turn leaves the slots as they were and the queue without its best task. */
  lemma TurnTakesBest(s: State, now: int)
    requires Valid(s) && CanStart(s)
    ensures var s' := AfterTurn(s, now);
            && Valid(s') && s'.limit == s.limit && |s'.active| == |s.active|
            && s'.queued == RemoveAt(s.queued, BestIndex(s.queued))
  {
    var record, s' := NextRecord(s, now), AfterTurn(s, now);
    StartNextValid(s, now);
    CompleteValid(StartNext(s, now), record.taskId);
    assert Ids(s.queued)[BestIndex(s.queued)] == record.taskId;
    assert s'.active.Keys == s.active.Keys;
    assert |s'.active.Keys| == |s'.active| && |s.active.Keys| == |s.active|;
  }

  /** The records are the tasks of `order`, each started at its time. */
  ghost predicate StartedInOrder(records: seq<ScheduledTask>, order: seq<ScheduledTask>, times: seq<int>) {
    && |records| == |order| == |times|
    && forall k :: 0 <= k < |order| ==> records[k] == StartedRecord(order[k], times[k])
  }

  lemma StartedInOrderCons(t: ScheduledTask, records: seq<ScheduledTask>, order: seq<ScheduledTask>, times: seq<int>)
    requires times != [] && StartedInOrder(records, order, times[1..])
    ensures StartedInOrder([StartedRecord(t, times[0])] + records, [t] + order, times)
  {
  }

  /**
   * With a free slot, whatever the clock shows, the records returned are those of the queue's tasks in the
   * order of their stable sort: same task, same priority, each started at the time given.
   */
  lemma {:induction false} DrainRecordsInOrder(s: State, times: seq<int>)
    requires Valid(s) && |s.active| < s.limit && |times| == |s.queued|
    ensures StartedInOrder(DrainRecords(s, times), DrainOrder(s.queued), times)
    decreases |times|
  {
    if times != [] {
      TurnTakesBest(s, times[0]);
      var s' := AfterTurn(s, times[0]);
      DrainRecordsInOrder(s', times[1..]);
      StartedInOrderCons(s.queued[BestIndex(s.queued)], DrainRecords(s', times[1..]), DrainOrder(s'.queued), times);
    }
  }
}
