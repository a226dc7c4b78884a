/** Wrappers live exactly as long as something holds them. */
module PoolPointers {
  import opened Pool

  /** A task's handles are live and cover what its program counter needs. */
  ghost predicate TaskPointers(task: Task, managed: map<Wrapper, Managed>) {
    task.held <= managed.Keys && Needed(task.pc) <= task.held
  }

  /** Every handle points to a live wrapper. */
  ghost predicate NoDangling(p: Shared, tasks: Tasks) {
    && (forall n :: n in p.bound ==> p.bound[n] in p.managed)
    && (forall t :: t in tasks ==> TaskPointers(tasks[t], p.managed))
    && (forall l :: l in p.leases ==> p.leases[l].target in p.managed)
    && (forall w :: w in p.managed ==> w < p.nextWrapper)
  }

  /** Some place still holds `w`. */
  ghost predicate Held(p: Shared, tasks: Tasks, w: Wrapper) {
    || (exists n :: n in p.bound && p.bound[n] == w)
    || (exists t :: t in tasks && w in tasks[t].held)
    || (exists l :: l in p.leases && p.leases[l].target == w)
  }

  /** No wrapper, and no permit inside it, outlives its last handle. */
  ghost predicate NoLeak(p: Shared, tasks: Tasks) {
    forall w :: w in p.managed ==> Held(p, tasks, w)
  }

  lemma HeldIffHandles(p: Shared, tasks: Tasks, w: Wrapper)
    ensures Held(p, tasks, w) <==> Handles(p, tasks, w) != {}
  {
    var hs := Handles(p, tasks, w);
    if n :| n in p.bound && p.bound[n] == w {
      assert ByName(n) in hs;
    }
    if t :| t in tasks && w in tasks[t].held {
      assert ByTask(t) in hs;
    }
    if l :| l in p.leases && p.leases[l].target == w {
      assert ByLease(l) in hs;
    }
    if h :| h in hs {
      match h
      case ByName(n) => assert n in p.bound && p.bound[n] == w;
      case ByTask(t) => assert t in tasks && w in tasks[t].held;
      case ByLease(l) => assert l in p.leases && p.leases[l].target == w;
    }
  }

  /** The part of `NoDangling` that does not mention tasks. */
  ghost predicate SharedPointers(p: Shared) {
    && (forall n :: n in p.bound ==> p.bound[n] in p.managed)
    && (forall l :: l in p.leases ==> p.leases[l].target in p.managed)
    && (forall w :: w in p.managed ==> w < p.nextWrapper)
  }

  predicate TakesNames(mv: Move) {
    mv.EvictDead? || mv.PruneIdle? || mv.Insert?
  }

  /** What a move may do to wrappers: keep them all, and give the task only live ones. */
  ghost predicate Grows(p: Shared, task: Task, e: Effect) {
    && SharedPointers(e.pool) && TaskPointers(e.task, e.pool.managed)
    && p.managed.Keys <= e.pool.managed.Keys
    && task.held <= e.task.held
  }

  lemma TakingKeepsPointers(p: Shared, tasks: Tasks, t: TaskId, mv: Move)
    requires t in tasks && CanMove(p, tasks[t], mv) && TakesNames(mv)
    requires SharedPointers(p) && TaskPointers(tasks[t], p.managed)
    ensures Grows(p, tasks[t], Act(p, tasks, t, mv))
  {
  }

  lemma OtherMovesKeepPointers(p: Shared, tasks: Tasks, t: TaskId, mv: Move)
    requires t in tasks && CanMove(p, tasks[t], mv) && !mv.DropArc? && !TakesNames(mv)
    requires SharedPointers(p) && TaskPointers(tasks[t], p.managed)
    ensures Grows(p, tasks[t], Act(p, tasks, t, mv))
  {
  }

  /** Dropping a handle frees at most that wrapper, and only when nothing else holds it. */
  lemma CollectKeepsPointers(p: Shared, tasks: Tasks, w: Wrapper)
    requires NoDangling(p, tasks)
    requires forall v :: v in p.managed && v != w ==> Held(p, tasks, v)
    ensures NoDangling(Collect(p, tasks, w), tasks) && NoLeak(Collect(p, tasks, w), tasks)
  {
    HeldIffHandles(p, tasks, w);
    var q := Collect(p, tasks, w);
    forall v | v in q.managed
      ensures Held(q, tasks, v)
    {
      assert Held(p, tasks, v);
    }
  }

  /** Handles only move or appear: whatever was held stays held. */
  lemma MoveKeepsHeld(p: Shared, tasks: Tasks, t: TaskId, mv: Move, w: Wrapper)
    requires t in tasks && CanMove(p, tasks[t], mv) && !mv.DropArc?
    requires Held(p, tasks, w) || w !in p.managed
    requires w in Act(p, tasks, t, mv).pool.managed
    ensures var e := Act(p, tasks, t, mv); Held(e.pool, tasks[t := e.task], w)
  {
    var e := Act(p, tasks, t, mv);
    var tasks' := tasks[t := e.task];
    if w !in p.managed {
      assert mv.DialOk? && w in tasks'[t].held;
    } else if n :| n in p.bound && p.bound[n] == w {
      if n in e.pool.bound && e.pool.bound[n] == w {
      } else {
        assert w in tasks'[t].held;
      }
    } else if u :| u in tasks && w in tasks[u].held {
      assert w in tasks'[u].held;
    } else {
      var l :| l in p.leases && p.leases[l].target == w;
      assert l in e.pool.leases && e.pool.leases[l].target == w;
    }
  }

  ghost predicate Pointers(p: Shared, tasks: Tasks) {
    NoDangling(p, tasks) && NoLeak(p, tasks)
  }

  lemma PointersMoves(p: Shared, tasks: Tasks, t: TaskId, mv: Move)
    requires Pointers(p, tasks) && t in tasks && CanMove(p, tasks[t], mv)
    ensures var e := Act(p, tasks, t, mv); Pointers(e.pool, tasks[t := e.task])
  {
    var e := Act(p, tasks, t, mv);
    var tasks' := tasks[t := e.task];
    if mv.DropArc? {
      forall v | v in p.managed && v != mv.wrapper
        ensures Held(p, tasks', v)
      {
        OtherHandlesStay(p, tasks, t, e.task, v);
      }
      CollectKeepsPointers(p, tasks', mv.wrapper);
    } else {
      if TakesNames(mv) {
        TakingKeepsPointers(p, tasks, t, mv);
      } else {
        OtherMovesKeepPointers(p, tasks, t, mv);
      }
      forall w | w in e.pool.managed
        ensures Held(e.pool, tasks', w)
      {
        MoveKeepsHeld(p, tasks, t, mv, w);
      }
    }
  }

  lemma OtherHandlesStay(p: Shared, tasks: Tasks, t: TaskId, task: Task, w: Wrapper)
    requires Held(p, tasks, w)
    requires t in tasks ==> (w in tasks[t].held ==> w in task.held)
    ensures Held(p, tasks[t := task], w)
  {
    if u :| u in tasks && w in tasks[u].held {
      assert w in tasks[t := task][u].held;
    }
  }

  /** A new task that takes `names` out of the map and nothing else. */
  lemma TakeoverKeepsPointers(p: Shared, tasks: Tasks, t: TaskId, task: Task, names: set<string>)
    requires Pointers(p, tasks) && t !in tasks && task.held == Taken(p.bound, names) && Needed(task.pc) == {}
    ensures Pointers(p.(bound := p.bound - names), tasks[t := task])
  {
    var q, tasks' := p.(bound := p.bound - names), tasks[t := task];
    forall w | w in q.managed
      ensures Held(q, tasks', w)
    {
      assert Held(p, tasks, w);
      if n :| n in p.bound && p.bound[n] == w {
        if n in names {
          assert w in tasks'[t].held;
        } else {
          assert q.bound[n] == w;
        }
      } else if u :| u in tasks && w in tasks[u].held {
        assert w in tasks'[u].held;
      }
    }
  }

  lemma EndKeepsPointers(p: Shared, tasks: Tasks, t: TaskId)
    requires Pointers(p, tasks) && t in tasks && tasks[t].held == {}
    ensures Pointers(p, tasks - {t})
  {
    forall w | w in p.managed
      ensures Held(p, tasks - {t}, w)
    {
      assert Held(p, tasks, w);
      if u :| u in tasks && w in tasks[u].held {
        assert w in (tasks - {t})[u].held;
      }
    }
  }

  /** Lease and liveness bookkeeping keeps all wrappers and all handles. */
  lemma SameHandles(p: Shared, q: Shared, tasks: Tasks)
    requires Pointers(p, tasks)
    requires q.bound == p.bound && q.managed.Keys == p.managed.Keys && q.nextWrapper == p.nextWrapper
    requires forall l :: l in p.leases ==> l in q.leases && q.leases[l].target == p.leases[l].target
    requires forall l :: l in q.leases ==> q.leases[l].target in p.managed
    ensures Pointers(q, tasks)
  {
    forall w | w in q.managed
      ensures Held(q, tasks, w)
    {
      assert Held(p, tasks, w);
      if l :| l in p.leases && p.leases[l].target == w {
        assert q.leases[l].target == w;
      }
    }
  }

  lemma FreeLeaseKeepsPointers(p: Shared, tasks: Tasks, l: LeaseId)
    requires Pointers(p, tasks) && l in p.leases
    ensures Pointers(Collect(p.(leases := p.leases - {l}), tasks, p.leases[l].target), tasks)
  {
    var q := p.(leases := p.leases - {l});
    forall v | v in q.managed && v != p.leases[l].target
      ensures Held(q, tasks, v)
    {
      assert Held(p, tasks, v);
      if k :| k in p.leases && p.leases[k].target == v {
        assert q.leases[k].target == v;
      }
    }
    CollectKeepsPointers(q, tasks, p.leases[l].target);
  }

  lemma PointersStep(s: State, a: Step)
    requires Pointers(s.pool, s.tasks) && Enabled(s, a)
    ensures Pointers(Apply(s, a).pool, Apply(s, a).tasks)
  {
    var p := s.pool;
    match a
    case Moves(t, mv) => PointersMoves(p, s.tasks, t, mv);
    case End(t) => EndKeepsPointers(p, s.tasks, t);
    case Begin(t, req) =>
      assert p == p.(bound := p.bound - {});
      TakeoverKeepsPointers(p, s.tasks, t, Apply(s, a).tasks[t], {});
    case TimerPrune(t, expired) =>
      TakeoverKeepsPointers(p, s.tasks, t, Apply(s, a).tasks[t], Prunable(p, s.tasks, expired));
    case Remove(t, names) => TakeoverKeepsPointers(p, s.tasks, t, Apply(s, a).tasks[t], names);
    case FreeLease(l) => FreeLeaseKeepsPointers(p, s.tasks, l);
    case CloneLease(l, k) => SameHandles(p, Apply(s, a).pool, s.tasks);
    case ReleaseLease(l) => SameHandles(p, Apply(s, a).pool, s.tasks);
    case CloneClient(_, _) => SameHandles(p, Apply(s, a).pool, s.tasks);
    case DropClient(_) => SameHandles(p, Apply(s, a).pool, s.tasks);
    case Die(_) => SameHandles(p, Apply(s, a).pool, s.tasks);
  }
}
