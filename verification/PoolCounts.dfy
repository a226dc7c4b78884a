/** Lease counters and capacity permits balance in every state. */
module PoolCounts {
  import opened Pool
  import opened PoolPointers

  // ---------- Leases ----------

  /** `active_leases` counts exactly the live lease handles. */
  ghost predicate LeasesCounted(managed: map<Wrapper, Managed>, leases: map<LeaseId, Lease>) {
    forall w :: w in managed ==> managed[w].activeLeases == |LeasesOn(leases, w)|
  }

  lemma AddCounts(p: Shared, l: LeaseId, w: Wrapper)
    requires LeasesCounted(p.managed, p.leases) && w in p.managed && l !in p.leases
    ensures LeasesCounted(AddLease(p, l, w).managed, AddLease(p, l, w).leases)
  {
    var q := AddLease(p, l, w);
    forall v | v in q.managed
      ensures q.managed[v].activeLeases == |LeasesOn(q.leases, v)|
    {
      if v == w {
        assert LeasesOn(q.leases, v) == LeasesOn(p.leases, v) + {l};
      } else {
        assert LeasesOn(q.leases, v) == LeasesOn(p.leases, v);
      }
    }
  }

  lemma UncountCounts(p: Shared, l: LeaseId)
    requires LeasesCounted(p.managed, p.leases) && l in p.leases && p.leases[l].counted
    requires p.leases[l].target in p.managed
    ensures LeasesCounted(UncountLease(p, l).managed, UncountLease(p, l).leases)
  {
    var q, w := UncountLease(p, l), p.leases[l].target;
    forall v | v in q.managed
      ensures q.managed[v].activeLeases == |LeasesOn(q.leases, v)|
    {
      if v == w {
        assert l in LeasesOn(p.leases, w);
        assert LeasesOn(q.leases, v) == LeasesOn(p.leases, v) - {l};
      } else {
        assert LeasesOn(q.leases, v) == LeasesOn(p.leases, v);
      }
    }
  }

  lemma FreeCounts(managed: map<Wrapper, Managed>, leases: map<LeaseId, Lease>, l: LeaseId)
    requires LeasesCounted(managed, leases) && l in leases && !leases[l].counted
    ensures LeasesCounted(managed, leases - {l})
  {
    forall w
      ensures LeasesOn(leases - {l}, w) == LeasesOn(leases, w)
    {
    }
  }

  /** No wrapper of `after` has a counter that differs from its counter in `before`. */
  ghost predicate CountersFrom(after: map<Wrapper, Managed>, before: map<Wrapper, Managed>) {
    forall w :: w in after ==> w in before && after[w].activeLeases == before[w].activeLeases
  }

  lemma MoveKeepsCounters(p: Shared, tasks: Tasks, t: TaskId, mv: Move)
    requires t in tasks && CanMove(p, tasks[t], mv) && !mv.ToLease? && !mv.DialOk?
    ensures Act(p, tasks, t, mv).pool.leases == p.leases && CountersFrom(Act(p, tasks, t, mv).pool.managed, p.managed)
  {
  }

  lemma LeasesMoves(p: Shared, tasks: Tasks, t: TaskId, mv: Move)
    requires t in tasks && CanMove(p, tasks[t], mv)
    requires LeasesCounted(p.managed, p.leases) && SharedPointers(p)
    ensures LeasesCounted(Act(p, tasks, t, mv).pool.managed, Act(p, tasks, t, mv).pool.leases)
  {
    match mv
    case ToLease(l) => AddCounts(p, l, tasks[t].pc.outcome.found);
    case DialOk => assert LeasesOn(p.leases, p.nextWrapper) == {};
    case _ => MoveKeepsCounters(p, tasks, t, mv);
  }

  lemma LeasesStep(s: State, a: Step)
    requires LeasesCounted(s.pool.managed, s.pool.leases) && SharedPointers(s.pool) && Enabled(s, a)
    ensures LeasesCounted(Apply(s, a).pool.managed, Apply(s, a).pool.leases)
  {
    var p := s.pool;
    match a
    case Moves(t, mv) => LeasesMoves(p, s.tasks, t, mv);
    case CloneLease(l, k) => AddCounts(p, k, p.leases[l].target);
    case ReleaseLease(l) => UncountCounts(p, l);
    case FreeLease(l) => FreeCounts(p.managed, p.leases, l);
    case _ => assert Apply(s, a).pool.leases == p.leases && CountersFrom(Apply(s, a).pool.managed, p.managed);
  }

  // ---------- Capacity ----------

  /** Available permits, wrappers and dialing leaders share the capacity. */
  ghost predicate Conserved(max: nat, p: Shared, tasks: Tasks) {
    p.permits + |p.managed| + |Dialers(tasks)| == max
  }

  lemma DialersMove(tasks: Tasks, t: TaskId, task: Task)
    ensures Dialers(tasks[t := task]) == if task.pc.Dialing? then Dialers(tasks) + {t} else Dialers(tasks) - {t}
    ensures t in Dialers(tasks) <==> t in tasks && tasks[t].pc.Dialing?
  {
  }

  /** How a move changes the three shares of the capacity. */
  lemma MoveShares(p: Shared, tasks: Tasks, t: TaskId, mv: Move)
    requires t in tasks && CanMove(p, tasks[t], mv) && SharedPointers(p)
    ensures var e := Act(p, tasks, t, mv);
            var before, after := if tasks[t].pc.Dialing? then 1 else 0, if e.task.pc.Dialing? then 1 else 0;
            e.pool.permits + |e.pool.managed| + after == p.permits + |p.managed| + before
  {
    var e := Act(p, tasks, t, mv);
    match mv
    case DialOk =>
      assert p.nextWrapper !in p.managed;
    case DropArc(w) =>
      FreedByOne(p, tasks[t := e.task], w);
    case _ => assert e.pool.managed.Keys == p.managed.Keys; SameSize(p.managed, e.pool.managed);
  }

  lemma SameSize(m: map<Wrapper, Managed>, n: map<Wrapper, Managed>)
    requires m.Keys == n.Keys
    ensures |m| == |n|
  {
    assert |m| == |m.Keys| && |n| == |n.Keys|;
  }

  lemma FreedByOne(p: Shared, tasks: Tasks, w: Wrapper)
    ensures var q := Collect(p, tasks, w); q.permits + |q.managed| == p.permits + |p.managed|
  {
    if w in p.managed {
      var m := p.managed - {w};
      assert m.Keys == p.managed.Keys - {w};
      assert |m| == |m.Keys| && |p.managed| == |p.managed.Keys|;
    }
  }

  lemma ConservedStep(s: State, a: Step)
    requires Conserved(s.max, s.pool, s.tasks) && SharedPointers(s.pool) && Enabled(s, a)
    ensures Conserved(s.max, Apply(s, a).pool, Apply(s, a).tasks)
  {
    var p := s.pool;
    match a
    case Moves(t, mv) =>
      MoveShares(p, s.tasks, t, mv);
      DialersMove(s.tasks, t, Act(p, s.tasks, t, mv).task);
    case End(t) => assert Dialers(s.tasks - {t}) == Dialers(s.tasks);
    case Begin(t, _) => DialersMove(s.tasks, t, Apply(s, a).tasks[t]);
    case TimerPrune(t, _) => DialersMove(s.tasks, t, Apply(s, a).tasks[t]);
    case Remove(t, _) => DialersMove(s.tasks, t, Apply(s, a).tasks[t]);
    case FreeLease(l) => FreedByOne(p.(leases := p.leases - {l}), s.tasks, p.leases[l].target);
    case _ => SameSize(p.managed, Apply(s, a).pool.managed);
  }
}
