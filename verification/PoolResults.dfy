/** What leaders and callers may assume about the map and about the transport they get. */
module PoolResults {
  import opened ReuseKeys
  import opened Pool
  import opened PoolPointers
  import opened PoolFlight

  // ---------- Between lookup and insertion a leader's name stays unbound ----------

  ghost predicate LeaderView(p: Shared, t: TaskId, task: Task) {
    match task.pc
    case Evicting(stage, w) =>
      stage.Leading? && task.req.name in p.bound ==> p.bound[task.req.name] == w && !Alive(p.managed, w)
    case Pruning(_) => task.req.name !in p.bound
    case Acquiring(_) => task.req.name !in p.bound
    case Dialing(_) => task.req.name !in p.bound
    case Inserting(_, w) =>
      && task.req.name !in p.bound
      && (forall n :: n in p.bound ==> p.bound[n] != w)
      && w in p.managed && p.managed[w].creator == t
      && p.managed[w].config == task.req.config && p.managed[w].key == task.req.Key()
    case Collided(_) => false
    case _ => true
  }

  ghost predicate BoundOnce(bound: map<string, Wrapper>) {
    forall n, m :: n in bound && m in bound && bound[n] == bound[m] ==> n == m
  }

  ghost predicate LeaderOwnsName(p: Shared, tasks: Tasks) {
    (forall t :: t in tasks ==> LeaderView(p, t, tasks[t])) && BoundOnce(p.bound)
  }

  predicate SameIdentity(m: Managed, n: Managed) {
    m.config == n.config && m.key == n.key && m.creator == n.creator && (n.alive ==> m.alive)
  }

  /** From `p` to `q` bindings only disappear and surviving wrappers keep their identity. */
  ghost predicate Fades(p: Shared, q: Shared) {
    && (forall n :: n in q.bound ==> n in p.bound && q.bound[n] == p.bound[n])
    && SameWrappers(p.managed, q.managed)
  }

  ghost predicate SameWrappers(m: map<Wrapper, Managed>, n: map<Wrapper, Managed>) {
    forall w :: w in m && w in n ==> SameIdentity(m[w], n[w])
  }

  lemma MoveFades(p: Shared, tasks: Tasks, t: TaskId, mv: Move)
    requires t in tasks && CanMove(p, tasks[t], mv) && !mv.Insert? && SharedPointers(p)
    ensures Fades(p, Act(p, tasks, t, mv).pool)
  {
  }

  /** The acting task's own view, given that it had one before. */
  lemma ActorLeaderView(p: Shared, tasks: Tasks, t: TaskId, mv: Move)
    requires t in tasks && CanMove(p, tasks[t], mv)
    requires SharedPointers(p) && TaskPointers(tasks[t], p.managed) && LeaderView(p, t, tasks[t])
    requires mv.DropArc? ==> TaskPointers(Act(p, tasks, t, mv).task, Act(p, tasks, t, mv).pool.managed)
    ensures LeaderView(Act(p, tasks, t, mv).pool, t, Act(p, tasks, t, mv).task)
  {
    if mv.DropArc? {
      MoveFades(p, tasks, t, mv);
      var e := Act(p, tasks, t, mv);
      BystanderLeaderView(p, e.pool, t, tasks[t].(held := e.task.held));
    }
  }

  lemma BystanderLeaderView(p: Shared, q: Shared, u: TaskId, task: Task)
    requires LeaderView(p, u, task) && Fades(p, q)
    requires Needed(task.pc) <= p.managed.Keys && Needed(task.pc) <= q.managed.Keys
    ensures LeaderView(q, u, task)
  {
  }

  /** An insertion under another name, of another wrapper, does not disturb a leader. */
  lemma BystanderOfInsert(p: Shared, n: string, w: Wrapper, u: TaskId, task: Task)
    requires LeaderView(p, u, task)
    requires Leads(task.pc).Some? ==> task.req.name != n
    requires task.pc.Inserting? ==> task.pc.made != w
    ensures LeaderView(p.(bound := p.bound[n := w]), u, task)
  {
  }

  /** Two leaders never share a name. */
  lemma LeadersDiffer(p: Shared, tasks: Tasks, t: TaskId, u: TaskId)
    requires Flight(p, tasks) && t in tasks && u in tasks && t != u
    requires Leads(tasks[t].pc).Some? && Leads(tasks[u].pc).Some?
    ensures tasks[t].req.name != tasks[u].req.name
  {
    assert FlightView(tasks[t], p.connecting, p.done) && FlightView(tasks[u], p.connecting, p.done);
  }

  lemma OwnsInsert(p: Shared, tasks: Tasks, t: TaskId)
    requires t in tasks && CanMove(p, tasks[t], Insert)
    requires LeaderOwnsName(p, tasks) && Flight(p, tasks)
    ensures var e := Act(p, tasks, t, Insert); LeaderOwnsName(e.pool, tasks[t := e.task])
  {
    var n, w := tasks[t].req.name, tasks[t].pc.made;
    assert LeaderView(p, t, tasks[t]);
    var e := Act(p, tasks, t, Insert);
    assert e.pool == p.(bound := p.bound[n := w]);
    forall u | u in tasks && u != t
      ensures LeaderView(e.pool, u, tasks[u])
    {
      assert LeaderView(p, u, tasks[u]);
      if Leads(tasks[u].pc).Some? {
        LeadersDiffer(p, tasks, t, u);
      }
      BystanderOfInsert(p, n, w, u, tasks[u]);
    }
  }

  lemma OwnsOther(p: Shared, tasks: Tasks, t: TaskId, mv: Move)
    requires t in tasks && CanMove(p, tasks[t], mv) && !mv.Insert?
    requires LeaderOwnsName(p, tasks) && NoDangling(p, tasks)
    requires var e := Act(p, tasks, t, mv); NoDangling(e.pool, tasks[t := e.task])
    ensures var e := Act(p, tasks, t, mv); LeaderOwnsName(e.pool, tasks[t := e.task])
  {
    var e := Act(p, tasks, t, mv);
    var tasks' := tasks[t := e.task];
    assert TaskPointers(tasks'[t], e.pool.managed);
    assert LeaderView(p, t, tasks[t]);
    ActorLeaderView(p, tasks, t, mv);
    MoveFades(p, tasks, t, mv);
    forall u | u in tasks && u != t
      ensures LeaderView(e.pool, u, tasks[u])
    {
      assert TaskPointers(tasks[u], p.managed) && TaskPointers(tasks'[u], e.pool.managed);
      BystanderLeaderView(p, e.pool, u, tasks[u]);
    }
  }

  lemma StepFades(s: State, a: Step)
    requires Enabled(s, a) && !a.Moves? && SharedPointers(s.pool)
    ensures Fades(s.pool, Apply(s, a).pool)
    ensures forall t :: t in Apply(s, a).tasks ==>
              if t in s.tasks then Apply(s, a).tasks[t] == s.tasks[t]
              else Apply(s, a).tasks[t].pc in {Lookup(Early), Gone, Closing}
  {
  }

  lemma OwnsStep(s: State, a: Step)
    requires LeaderOwnsName(s.pool, s.tasks) && Pointers(s.pool, s.tasks) && Flight(s.pool, s.tasks) && Enabled(s, a)
    ensures LeaderOwnsName(Apply(s, a).pool, Apply(s, a).tasks)
  {
    if a.Moves? {
      if a.move.Insert? {
        OwnsInsert(s.pool, s.tasks, a.task);
      } else {
        PointersMoves(s.pool, s.tasks, a.task, a.move);
        OwnsOther(s.pool, s.tasks, a.task, a.move);
      }
    } else {
      var s' := Apply(s, a);
      StepFades(s, a);
      PointersStep(s, a);
      forall u | u in s'.tasks
        ensures LeaderView(s'.pool, u, s'.tasks[u])
      {
        if u in s.tasks {
          assert TaskPointers(s.tasks[u], s.pool.managed) && TaskPointers(s'.tasks[u], s'.pool.managed);
          BystanderLeaderView(s.pool, s'.pool, u, s.tasks[u]);
        }
      }
    }
  }

  // ---------- What a caller is given ----------

  /** Why a caller may use the transport it was given. */
  predicate Justified(m: Managed, t: TaskId, task: Task, how: How) {
    match how
    case Reused => m.config == task.req.config && CanReuse(m.key, task.req.Key())
    case Followed =>
      && m.config == task.req.config && m.key.NonReusable? && task.req.Key().NonReusable?
      && task.waited && !task.req.entry.ConnectJump?
    case Fresh => m.config == task.req.config && m.key == task.req.Key() && m.creator == t
    case Unchecked => task.req.entry.Get?
  }

  ghost predicate OutcomeView(p: Shared, t: TaskId, task: Task, outcome: Outcome) {
    outcome.Got? ==> outcome.found in p.managed && Justified(p.managed[outcome.found], t, task, outcome.how)
  }

  ghost predicate ResultView(p: Shared, t: TaskId, task: Task) {
    match task.pc
    case Leaving(_, outcome) => OutcomeView(p, t, task, outcome)
    case Returning(outcome) => OutcomeView(p, t, task, outcome)
    case Lookup(stage) => stage.AfterWait? ==> task.waited && !task.req.entry.ConnectJump?
    case Evicting(stage, _) => stage.AfterWait? ==> task.waited && !task.req.entry.ConnectJump?
    case _ => true
  }

  ghost predicate ResultsJustified(p: Shared, tasks: Tasks) {
    forall t :: t in tasks ==> ResultView(p, t, tasks[t])
  }

  lemma BystanderResult(p: Shared, q: Shared, u: TaskId, task: Task)
    requires ResultView(p, u, task) && SameWrappers(p.managed, q.managed)
    requires Needed(task.pc) <= p.managed.Keys && Needed(task.pc) <= q.managed.Keys
    ensures ResultView(q, u, task)
  {
  }

  lemma ActorResult(p: Shared, tasks: Tasks, t: TaskId, mv: Move)
    requires t in tasks && CanMove(p, tasks[t], mv) && !mv.DropArc?
    requires SharedPointers(p) && TaskPointers(tasks[t], p.managed) && LeaderView(p, t, tasks[t])
    requires ResultView(p, t, tasks[t])
    ensures ResultView(Act(p, tasks, t, mv).pool, t, Act(p, tasks, t, mv).task)
  {
  }

  lemma MoveSameWrappers(p: Shared, tasks: Tasks, t: TaskId, mv: Move)
    requires t in tasks && CanMove(p, tasks[t], mv) && SharedPointers(p)
    ensures SameWrappers(p.managed, Act(p, tasks, t, mv).pool.managed)
  {
    if !mv.Insert? {
      MoveFades(p, tasks, t, mv);
    }
  }

  lemma DroppedArcResult(p: Shared, tasks: Tasks, t: TaskId, w: Wrapper)
    requires t in tasks && CanMove(p, tasks[t], DropArc(w)) && Pointers(p, tasks) && ResultView(p, t, tasks[t])
    requires var e := Act(p, tasks, t, DropArc(w)); TaskPointers(e.task, e.pool.managed)
    ensures var e := Act(p, tasks, t, DropArc(w)); ResultView(e.pool, t, e.task)
  {
    var e := Act(p, tasks, t, DropArc(w));
    MoveSameWrappers(p, tasks, t, DropArc(w));
    assert TaskPointers(tasks[t], p.managed);
    BystanderResult(p, e.pool, t, tasks[t]);
  }

  lemma ResultsMoves(p: Shared, tasks: Tasks, t: TaskId, mv: Move)
    requires t in tasks && CanMove(p, tasks[t], mv)
    requires LeaderOwnsName(p, tasks) && Pointers(p, tasks) && ResultsJustified(p, tasks)
    ensures var e := Act(p, tasks, t, mv); ResultsJustified(e.pool, tasks[t := e.task])
  {
    var e := Act(p, tasks, t, mv);
    var tasks' := tasks[t := e.task];
    PointersMoves(p, tasks, t, mv);
    MoveSameWrappers(p, tasks, t, mv);
    assert TaskPointers(tasks'[t], e.pool.managed) && TaskPointers(tasks[t], p.managed);
    assert ResultView(p, t, tasks[t]) && LeaderView(p, t, tasks[t]);
    if mv.DropArc? {
      DroppedArcResult(p, tasks, t, mv.wrapper);
    } else {
      ActorResult(p, tasks, t, mv);
    }
    forall u | u in tasks' && u != t
      ensures ResultView(e.pool, u, tasks'[u])
    {
      assert TaskPointers(tasks'[u], e.pool.managed) && TaskPointers(tasks[u], p.managed);
      assert ResultView(p, u, tasks[u]);
      BystanderResult(p, e.pool, u, tasks'[u]);
    }
  }

  lemma ResultsStep(s: State, a: Step)
    requires LeaderOwnsName(s.pool, s.tasks) && Pointers(s.pool, s.tasks) && ResultsJustified(s.pool, s.tasks)
    requires Enabled(s, a)
    ensures ResultsJustified(Apply(s, a).pool, Apply(s, a).tasks)
  {
    if a.Moves? {
      ResultsMoves(s.pool, s.tasks, a.task, a.move);
    } else {
      var s' := Apply(s, a);
      StepFades(s, a);
      PointersStep(s, a);
      forall u | u in s'.tasks
        ensures ResultView(s'.pool, u, s'.tasks[u])
      {
        if u in s.tasks {
          assert TaskPointers(s.tasks[u], s.pool.managed) && TaskPointers(s'.tasks[u], s'.pool.managed);
          BystanderResult(s.pool, s'.pool, u, s.tasks[u]);
        }
      }
    }
  }
}
