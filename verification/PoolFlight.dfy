/** Single flight over every interleaving. */
module PoolFlight {
  import opened Wrappers
  import opened Pool

  /** A leader's signal is the one registered for its name; a waiter's signal is done or still led. */
  ghost predicate FlightView(task: Task, connecting: map<string, Signal>, done: set<Signal>) {
    && (Leads(task.pc).Some? ==>
          StillLeads(connecting, task.req.name, Leads(task.pc).value) && Leads(task.pc).value !in done)
    && (task.pc.Waiting? ==> task.pc.signal in done || task.pc.signal in connecting.Values)
  }

  ghost predicate Led(tasks: Tasks, n: string, g: Signal) {
    exists t :: t in tasks && tasks[t].req.name == n && Leads(tasks[t].pc) == Some(g)
  }

  /** A name is connecting exactly while one leader holds its signal; no waiter is stranded. */
  ghost predicate SingleFlight(tasks: Tasks, connecting: map<string, Signal>, done: set<Signal>, next: Signal) {
    && (forall t :: t in tasks ==> FlightView(tasks[t], connecting, done))
    && (forall n :: n in connecting ==> connecting[n] < next && Led(tasks, n, connecting[n]))
    && (forall t, u ::
          t in tasks && u in tasks && Leads(tasks[t].pc).Some? && Leads(tasks[t].pc) == Leads(tasks[u].pc) ==> t == u)
    && (forall g :: g in done ==> g < next)
  }

  lemma FlightMove(tasks: Tasks, connecting: map<string, Signal>, done: set<Signal>, next: Signal, t: TaskId,
      task: Task)
    requires SingleFlight(tasks, connecting, done, next)
    requires Leads(task.pc) == if t in tasks then Leads(tasks[t].pc) else None
    requires t in tasks ==> tasks[t].req == task.req
    requires FlightView(task, connecting, done)
    ensures SingleFlight(tasks[t := task], connecting, done, next)
  {
    var tasks' := tasks[t := task];
    forall n | n in connecting
      ensures Led(tasks', n, connecting[n])
    {
      var u :| u in tasks && tasks[u].req.name == n && Leads(tasks[u].pc) == Some(connecting[n]);
      assert u in tasks' && tasks'[u].req.name == n && Leads(tasks'[u].pc) == Some(connecting[n]);
    }
  }

  lemma FlightEnd(tasks: Tasks, connecting: map<string, Signal>, done: set<Signal>, next: Signal, t: TaskId)
    requires SingleFlight(tasks, connecting, done, next)
    requires t in tasks && Leads(tasks[t].pc).None?
    ensures SingleFlight(tasks - {t}, connecting, done, next)
  {
    forall n | n in connecting
      ensures Led(tasks - {t}, n, connecting[n])
    {
      var u :| u in tasks && tasks[u].req.name == n && Leads(tasks[u].pc) == Some(connecting[n]);
      assert u in tasks - {t};
    }
  }

  lemma FlightClaim(tasks: Tasks, connecting: map<string, Signal>, done: set<Signal>, g: Signal, t: TaskId, task: Task)
    requires SingleFlight(tasks, connecting, done, g)
    requires t in tasks && Leads(tasks[t].pc).None? && Leads(task.pc) == Some(g) && task.req.name !in connecting
    ensures SingleFlight(tasks[t := task], connecting[task.req.name := g], done, g + 1)
  {
    var name := task.req.name;
    var tasks' := tasks[t := task];
    var connecting' := connecting[name := g];
    ValuesGrow(connecting, name, g);
    forall n | n in connecting'
      ensures Led(tasks', n, connecting'[n])
    {
      if n == name {
        assert tasks'[t].req.name == n && Leads(tasks'[t].pc) == Some(connecting'[n]);
      } else {
        var u :| u in tasks && tasks[u].req.name == n && Leads(tasks[u].pc) == Some(connecting[n]);
        assert tasks'[u] == tasks[u];
      }
    }
  }

  lemma ValuesGrow(connecting: map<string, Signal>, n: string, g: Signal)
    requires n !in connecting
    ensures connecting.Values <= connecting[n := g].Values
  {
    forall v | v in connecting.Values
      ensures v in connecting[n := g].Values
    {
      var m :| m in connecting && connecting[m] == v;
      assert connecting[n := g][m] == v;
    }
  }

  lemma FlightDrop(tasks: Tasks, connecting: map<string, Signal>, done: set<Signal>, next: Signal, t: TaskId,
      task: Task)
    requires SingleFlight(tasks, connecting, done, next)
    requires t in tasks && Leads(tasks[t].pc).Some? && Leads(task.pc).None? && !task.pc.Waiting?
    requires task.req == tasks[t].req
    ensures SingleFlight(tasks[t := task], connecting - {task.req.name}, done + {Leads(tasks[t].pc).value}, next)
  {
    var g := Leads(tasks[t].pc).value;
    var tasks', connecting' := tasks[t := task], connecting - {task.req.name};
    assert FlightView(tasks[t], connecting, done);
    forall n | n in connecting'
      ensures Led(tasks', n, connecting'[n])
    {
      var u :| u in tasks && tasks[u].req.name == n && Leads(tasks[u].pc) == Some(connecting[n]);
      assert tasks'[u] == tasks[u];
    }
    forall u | u in tasks'
      ensures FlightView(tasks'[u], connecting', done + {g})
    {
      if u != t {
        OtherView(tasks[u], connecting, done, task.req.name, g);
      }
    }
  }

  lemma OtherView(v: Task, connecting: map<string, Signal>, done: set<Signal>, name: string, g: Signal)
    requires FlightView(v, connecting, done) && StillLeads(connecting, name, g) && Leads(v.pc) != Some(g)
    ensures FlightView(v, connecting - {name}, done + {g})
  {
    if v.pc.Waiting? && v.pc.signal in connecting.Values {
      var n :| n in connecting && connecting[n] == v.pc.signal;
      if n != name {
        assert (connecting - {name})[n] == v.pc.signal;
      }
    }
  }

  /** Apart from a claim and the guard's drop, no move changes who leads or what anyone waits for. */
  lemma SameLead(p: Shared, tasks: Tasks, t: TaskId, mv: Move)
    requires t in tasks && CanMove(p, tasks[t], mv) && !mv.ClaimConnect? && !mv.LeaderDrop?
    ensures var e := Act(p, tasks, t, mv);
            && e.pool.connecting == p.connecting && e.pool.done == p.done && e.pool.nextSignal == p.nextSignal
            && Leads(e.task.pc) == Leads(tasks[t].pc) && e.task.req == tasks[t].req
            && (e.task.pc.Waiting? ==> e.task.pc == tasks[t].pc)
  {
  }

  ghost predicate Flight(p: Shared, tasks: Tasks) {
    SingleFlight(tasks, p.connecting, p.done, p.nextSignal)
  }

  lemma FlightMoves(p: Shared, tasks: Tasks, t: TaskId, mv: Move)
    requires Flight(p, tasks) && t in tasks && CanMove(p, tasks[t], mv)
    ensures var e := Act(p, tasks, t, mv); Flight(e.pool, tasks[t := e.task])
  {
    var e := Act(p, tasks, t, mv);
    assert FlightView(tasks[t], p.connecting, p.done);
    if mv.ClaimConnect? && tasks[t].req.name !in p.connecting {
      FlightClaim(tasks, p.connecting, p.done, p.nextSignal, t, e.task);
    } else if mv.LeaderDrop? {
      FlightDrop(tasks, p.connecting, p.done, p.nextSignal, t, e.task);
    } else {
      if mv.ClaimConnect? {
        assert e.task.pc.signal in p.connecting.Values;
      } else {
        SameLead(p, tasks, t, mv);
      }
      FlightMove(tasks, p.connecting, p.done, p.nextSignal, t, e.task);
    }
  }

  lemma FlightStep(s: State, a: Step)
    requires Flight(s.pool, s.tasks) && Enabled(s, a)
    ensures Flight(Apply(s, a).pool, Apply(s, a).tasks)
  {
    var p := s.pool;
    match a
    case Moves(t, mv) => FlightMoves(p, s.tasks, t, mv);
    case End(t) => FlightEnd(s.tasks, p.connecting, p.done, p.nextSignal, t);
    case Begin(t, req) => FlightMove(s.tasks, p.connecting, p.done, p.nextSignal, t, Apply(s, a).tasks[t]);
    case TimerPrune(t, _) => FlightMove(s.tasks, p.connecting, p.done, p.nextSignal, t, Apply(s, a).tasks[t]);
    case Remove(t, _) => FlightMove(s.tasks, p.connecting, p.done, p.nextSignal, t, Apply(s, a).tasks[t]);
    case _ =>
  }
}
