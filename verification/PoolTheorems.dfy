/** The connection pool's guarantees over every run. */
module PoolTheorems {
  import opened Wrappers
  import opened ReuseKeys
  import opened Pool
  import opened PoolPointers
  import opened PoolCounts
  import opened PoolFlight
  import opened PoolResults

  /** Everything the pool keeps in every reachable state. */
  ghost predicate Inv(s: State) {
    && Pointers(s.pool, s.tasks)
    && LeasesCounted(s.pool.managed, s.pool.leases)
    && Conserved(s.max, s.pool, s.tasks)
    && Flight(s.pool, s.tasks)
    && LeaderOwnsName(s.pool, s.tasks)
    && ResultsJustified(s.pool, s.tasks)
  }

  lemma InvStep(s: State, a: Step)
    requires Inv(s) && Enabled(s, a)
    ensures Inv(Apply(s, a))
  {
    PointersStep(s, a);
    LeasesStep(s, a);
    ConservedStep(s, a);
    FlightStep(s, a);
    OwnsStep(s, a);
    ResultsStep(s, a);
  }

  lemma {:induction false} EveryRunKeepsInv(max: nat, steps: seq<Step>, s: State)
    requires Run(max, steps, s)
    ensures Inv(s) && s.max == max
    decreases |steps|
  {
    if steps != [] {
      var before, last := steps[..|steps| - 1], steps[|steps| - 1];
      var p: State :| Run(max, before, p) && Enabled(p, last) && s == Apply(p, last);
      EveryRunKeepsInv(max, before, p);
      InvStep(p, last);
    }
  }

  /** Two tasks never set up a transport for the same name at the same time. */
  lemma AtMostOneSetupPerName(max: nat, steps: seq<Step>, s: State, t: TaskId, u: TaskId)
    requires Run(max, steps, s) && t in s.tasks && u in s.tasks
    requires Leads(s.tasks[t].pc).Some? && Leads(s.tasks[u].pc).Some? && s.tasks[t].req.name == s.tasks[u].req.name
    ensures t == u
  {
    EveryRunKeepsInv(max, steps, s);
    if t != u {
      LeadersDiffer(s.pool, s.tasks, t, u);
    }
  }

  lemma RegisteredSignalIsLed(p: Shared, tasks: Tasks, g: Signal)
    requires Flight(p, tasks) && g in p.connecting.Values
    ensures exists u :: u in tasks && Leads(tasks[u].pc) == Some(g)
  {
    var n :| n in p.connecting && p.connecting[n] == g;
    assert Led(tasks, n, g);
  }

  /** A waiter whose leader is gone, for whatever reason, can always proceed. */
  lemma WaitersAreWoken(max: nat, steps: seq<Step>, s: State, t: TaskId)
    requires Run(max, steps, s) && t in s.tasks && s.tasks[t].pc.Waiting?
    requires forall u :: u in s.tasks ==> Leads(s.tasks[u].pc) != Some(s.tasks[t].pc.signal)
    ensures Enabled(s, Moves(t, Wake))
  {
    EveryRunKeepsInv(max, steps, s);
    var g := s.tasks[t].pc.signal;
    assert FlightView(s.tasks[t], s.pool.connecting, s.pool.done);
    if g in s.pool.connecting.Values {
      RegisteredSignalIsLed(s.pool, s.tasks, g);
    }
  }

  /** No leader ever finds its name taken at insertion: neither collision branch of the source runs. */
  lemma InsertNeverCollides(max: nat, steps: seq<Step>, s: State, t: TaskId)
    requires Run(max, steps, s) && t in s.tasks
    ensures !s.tasks[t].pc.Collided?
    ensures s.tasks[t].pc.Inserting? ==> s.tasks[t].req.name !in s.pool.bound
  {
    EveryRunKeepsInv(max, steps, s);
    assert LeaderView(s.pool, t, s.tasks[t]);
  }

  /** Capacity is conserved, so the map never outgrows what the permits leave. */
  lemma CapacityIsConserved(max: nat, steps: seq<Step>, s: State)
    requires Run(max, steps, s)
    ensures s.pool.permits + |s.pool.managed| + |Dialers(s.tasks)| == max
    ensures |s.pool.bound| <= max - s.pool.permits
  {
    EveryRunKeepsInv(max, steps, s);
    BoundWithinManaged(s.pool.bound, s.pool.managed.Keys);
    assert |s.pool.managed| == |s.pool.managed.Keys|;
  }

  lemma {:induction false} BoundWithinManaged(bound: map<string, Wrapper>, ws: set<Wrapper>)
    requires BoundOnce(bound) && forall n :: n in bound ==> bound[n] in ws
    ensures |bound| <= |ws|
    decreases |bound|
  {
    if n :| n in bound {
      var rest := bound - {n};
      assert bound == rest[n := bound[n]];
      BoundWithinManaged(rest, ws - {bound[n]});
    } else {
      assert bound == map[];
    }
  }

  /**
   Callers get a transport with exactly their configuration. It is one they made themselves, or a shared
   one that was made from the very same credential, without any secret in it, or, after waiting, one whose
   credential cannot be shared, if theirs cannot either. A call through a jump host never gets the last kind.
   */
  lemma ReturnedTransportFits(max: nat, steps: seq<Step>, s: State, t: TaskId, w: Wrapper, how: How)
    requires Run(max, steps, s) && t in s.tasks && s.tasks[t].pc == Returning(Got(w, how))
    requires !s.tasks[t].req.entry.Get?
    ensures w in s.pool.managed
    ensures var m, task := s.pool.managed[w], s.tasks[t];
            && m.config == task.req.config
            && (|| (m.key == KeyOf(task.req.auth) && Shareable(task.req.auth))
                || (m.key == KeyOf(task.req.auth) && m.creator == t)
                || (m.key == NonReusable && !Shareable(task.req.auth) && task.waited && !task.req.entry.ConnectJump?))
            && (Shareable(task.req.auth) ==>
                  forall a :: KeyOf(a) == m.key ==> a == task.req.auth && !CarriesSecret(a))
            && (CarriesSecret(task.req.auth) ==> m.key == NonReusable && (m.creator == t || task.waited))
  {
    EveryRunKeepsInv(max, steps, s);
    assert ResultView(s.pool, t, s.tasks[t]);
    var m, task := s.pool.managed[w], s.tasks[t];
    CanReuseIsEqualityOffNonReusable(m.key, task.req.Key());
    if Shareable(task.req.auth) {
      forall a | KeyOf(a) == m.key
        ensures a == task.req.auth && !CarriesSecret(a)
      {
        ReuseExactly(a, task.req.auth);
      }
    }
    ReuseExactly(task.req.auth, task.req.auth);
  }

  /** The caller may use the transport: same configuration, and the same shareable key or one wait for both. */
  predicate MayHave(m: Managed, req: Request, afterWait: bool) {
    && m.config == req.config
    && (|| (m.key == KeyOf(req.auth) && m.key != NonReusable)
        || (afterWait && m.key == NonReusable && KeyOf(req.auth) == NonReusable))
  }

  /** Where the caller stands once its lookup is answered. */
  predicate Answered(pc: Pc, stage: Stage, outcome: Outcome) {
    pc == if stage.Leading? then Leaving(stage.signal, outcome) else Returning(outcome)
  }

  /**
   What a lookup of `task` turns it into: a live transport of that name goes exactly to those who may have
   it, the others fail; a dead one is to be evicted; without one a leader sets up, a waiter starts over and
   a first lookup claims the name.
   */
  ghost predicate LookedUp(p: Shared, task: Task, after: Task)
    requires task.pc.Lookup?
  {
    var req, stage := task.req, task.pc.stage;
    && after.req == req && after.waited == task.waited
    && (req.name !in p.bound ==>
          && after.held == task.held
          && (stage.Leading? ==> after.pc == Pruning(stage.signal))
          && (stage.AfterWait? ==> after.pc == Lookup(Early))
          && (stage.Early? ==> after.pc == if req.entry.Get? then Returning(Failed) else Claiming))
    && (req.name in p.bound ==>
          var w := p.bound[req.name];
          var live := w in p.managed && p.managed[w].alive;
          && (!live ==> after.pc == Evicting(stage, w) && after.held == task.held + {w})
          && (live ==>
                var m := p.managed[w];
                var has := req.entry.Get? || MayHave(m, req, stage.AfterWait?);
                var how := if req.entry.Get? then Unchecked else if m.key == NonReusable then Followed else Reused;
                && (has <==> Answered(after.pc, stage, Got(w, how)))
                && (!has <==> Answered(after.pc, stage, Failed))
                && after.held == if has then task.held + {w} else task.held))
  }

  lemma LookupExactly(p: Shared, tasks: Tasks, t: TaskId)
    requires t in tasks && tasks[t].pc.Lookup?
    ensures Act(p, tasks, t, Look).pool == p && LookedUp(p, tasks[t], Act(p, tasks, t, Look).task)
  {
    var task := tasks[t];
    if task.req.name in p.bound && Alive(p.managed, p.bound[task.req.name]) {
      CanReuseIsEqualityOffNonReusable(p.managed[p.bound[task.req.name]].key, task.req.Key());
    }
  }

  /** The lease counter is the number of live leases, so a released lease never underflows it. */
  lemma LeaseCounterIsExact(max: nat, steps: seq<Step>, s: State, w: Wrapper)
    requires Run(max, steps, s) && w in s.pool.managed
    ensures s.pool.managed[w].activeLeases == |LeasesOn(s.pool.leases, w)|
    ensures forall l ::
              Enabled(s, ReleaseLease(l)) && s.pool.leases[l].target == w ==> s.pool.managed[w].activeLeases > 0
  {
    EveryRunKeepsInv(max, steps, s);
    forall l | Enabled(s, ReleaseLease(l)) && s.pool.leases[l].target == w
      ensures s.pool.managed[w].activeLeases > 0
    {
      assert l in LeasesOn(s.pool.leases, w);
    }
  }

  // ---------- Why a binding may disappear ----------

  /** Nothing but the map itself refers to `w`. */
  ghost predicate Untouched(s: State, w: Wrapper) {
    && (forall t :: t in s.tasks ==> w !in s.tasks[t].held)
    && (forall l :: l in s.pool.leases ==> s.pool.leases[l].target != w)
    && (forall c :: c in s.pool.clones ==> s.pool.clones[c] != w)
  }

  lemma SoleElement<T>(xs: set<T>, a: T, b: T)
    requires |xs| == 1 && a in xs && b in xs
    ensures a == b
  {
    assert |xs - {a}| == 0;
  }

  /** The idle test passes only for a wrapper without task, lease or raw client. */
  lemma OnlyOwnerMeansUntouched(s: State, n: string)
    requires n in s.pool.bound && OnlyManagerOwns(s.pool, s.tasks, s.pool.bound[n])
    ensures Untouched(s, s.pool.bound[n])
  {
    var w := s.pool.bound[n];
    var hs := Handles(s.pool, s.tasks, w);
    assert ByName(n) in hs;
    forall t | t in s.tasks
      ensures w !in s.tasks[t].held
    {
      if w in s.tasks[t].held {
        SoleElement(hs, ByName(n), ByTask(t));
      }
    }
    forall l | l in s.pool.leases
      ensures s.pool.leases[l].target != w
    {
      if s.pool.leases[l].target == w {
        SoleElement(hs, ByName(n), ByLease(l));
      }
    }
    forall c | c in s.pool.clones
      ensures s.pool.clones[c] != w
    {
      assert s.pool.clones[c] == w ==> c in Clones(s.pool.clones, w);
    }
  }

  /** A sweep takes out exactly the expired names whose wrapper nothing but the map refers to. */
  lemma SweptExactly(max: nat, steps: seq<Step>, s: State, expired: set<string>)
    requires Run(max, steps, s)
    ensures forall n ::
              n in Prunable(s.pool, s.tasks, expired) <==>
                n in s.pool.bound && n in expired && Untouched(s, s.pool.bound[n])
  {
    EveryRunKeepsInv(max, steps, s);
    forall n | n in s.pool.bound
      ensures OnlyManagerOwns(s.pool, s.tasks, s.pool.bound[n]) <==> Untouched(s, s.pool.bound[n])
    {
      if Untouched(s, s.pool.bound[n]) {
        UntouchedIsOwned(s, n);
      }
      if OnlyManagerOwns(s.pool, s.tasks, s.pool.bound[n]) {
        OnlyOwnerMeansUntouched(s, n);
      }
    }
  }

  lemma UntouchedIsOwned(s: State, n: string)
    requires NoDangling(s.pool, s.tasks) && LeasesCounted(s.pool.managed, s.pool.leases) && BoundOnce(s.pool.bound)
    requires n in s.pool.bound && Untouched(s, s.pool.bound[n])
    ensures OnlyManagerOwns(s.pool, s.tasks, s.pool.bound[n])
  {
    var w := s.pool.bound[n];
    assert Handles(s.pool, s.tasks, w) == {ByName(n)};
    assert LeasesOn(s.pool.leases, w) == {};
    assert Clones(s.pool.clones, w) == {};
  }

  /** `n` is no longer bound to the wrapper it had. */
  ghost predicate Loses(p: Shared, q: Shared, n: string) {
    n in p.bound && (n !in q.bound || q.bound[n] != p.bound[n])
  }

  lemma MoveUnbinds(p: Shared, tasks: Tasks, t: TaskId, mv: Move, n: string)
    requires t in tasks && CanMove(p, tasks[t], mv) && LeaderView(p, t, tasks[t])
    requires Loses(p, Act(p, tasks, t, mv).pool, n)
    ensures (mv.PruneIdle? && OnlyManagerOwns(p, tasks, p.bound[n])) || !Alive(p.managed, p.bound[n])
  {
  }

  /**
   In every step of every run, a name loses its wrapper only because an explicit removal asked for
   it, because the wrapper is dead, or because an idle sweep found nobody using it. In particular
   an eviction decided on a stale observation never hits a live, rebound transport.
   */
  lemma BindingsLeaveForAReason(max: nat, steps: seq<Step>, s: State, a: Step, n: string)
    requires Run(max, steps, s) && Enabled(s, a) && Loses(s.pool, Apply(s, a).pool, n)
    ensures || (a.Remove? && n in a.names)
            || !Alive(s.pool.managed, s.pool.bound[n])
            || (Untouched(s, s.pool.bound[n]) && LeasesOn(s.pool.leases, s.pool.bound[n]) == {})
  {
    var w := s.pool.bound[n];
    if a.Moves? {
      EveryRunKeepsInv(max, steps, s);
      assert LeaderView(s.pool, a.task, s.tasks[a.task]);
      MoveUnbinds(s.pool, s.tasks, a.task, a.move, n);
    }
    if OnlyManagerOwns(s.pool, s.tasks, w) {
      OnlyOwnerMeansUntouched(s, n);
      assert LeasesOn(s.pool.leases, w) == {};
    }
  }

  // ---------- Opening a whole group ----------

  /** `s` follows from `start` by the given steps. */
  ghost predicate Segment(start: State, steps: seq<Step>, s: State)
    decreases |steps|
  {
    if steps == [] then s == start
    else
      var last := steps[|steps| - 1];
      exists p: State :: Segment(start, steps[..|steps| - 1], p) && Enabled(p, last) && s == Apply(p, last)
  }

  /** Program counters from which a permit is never asked for again. */
  predicate PastAcquire(pc: Pc) {
    pc.Dialing? || pc.Inserting? || pc.Collided? || pc.Leaving? || pc.Returning? || pc.Closing? || pc.Gone?
  }

  lemma StepKeepsPast(s: State, a: Step, t: TaskId)
    requires Enabled(s, a) && (t in s.tasks ==> PastAcquire(s.tasks[t].pc)) && !(a.Begin? && a.task == t)
    ensures t in Apply(s, a).tasks ==> PastAcquire(Apply(s, a).tasks[t].pc)
  {
  }

  lemma MovePermits(p: Shared, tasks: Tasks, t: TaskId, mv: Move)
    requires t in tasks && CanMove(p, tasks[t], mv)
    ensures Act(p, tasks, t, mv).pool.permits >= p.permits - if mv.Acquire? then 1 else 0
    ensures mv.Acquire? ==> PastAcquire(Act(p, tasks, t, mv).task.pc)
  {
  }

  /** Only a permit request lowers the number of permits, and by one. */
  lemma PermitsFallOnlyByAcquire(s: State, a: Step)
    requires Enabled(s, a)
    ensures Apply(s, a).pool.permits >= s.pool.permits - if a.Moves? && a.move.Acquire? then 1 else 0
    ensures a.Moves? && a.move.Acquire? ==> PastAcquire(Apply(s, a).tasks[a.task].pc)
  {
    if a.Moves? {
      MovePermits(s.pool, s.tasks, a.task, a.move);
    }
  }

  /** No task of `askers` can ask for a permit any more; it may be gone. */
  ghost predicate AllPast(tasks: Tasks, askers: seq<TaskId>) {
    forall t :: t in askers && t in tasks ==> PastAcquire(tasks[t].pc)
  }

  function Asks(a: Step): seq<TaskId> {
    if a.Moves? && a.move.Acquire? then [a.task] else []
  }

  lemma StepAsksOnce(p: State, a: Step, askers: seq<TaskId>)
    requires Enabled(p, a) && Distinct(askers) && AllPast(p.tasks, askers) && (a.Begin? ==> a.task !in askers)
    ensures Distinct(askers + Asks(a)) && AllPast(Apply(p, a).tasks, askers + Asks(a))
    ensures Apply(p, a).pool.permits + |Asks(a)| >= p.pool.permits
  {
    PermitsFallOnlyByAcquire(p, a);
    forall t | t in askers
      ensures t in Apply(p, a).tasks ==> PastAcquire(Apply(p, a).tasks[t].pc)
    {
      StepKeepsPast(p, a, t);
    }
  }

  /** The tasks that asked for a permit, in order. */
  function Takers(steps: seq<Step>): seq<TaskId> {
    if steps == [] then [] else Takers(steps[..|steps| - 1]) + Asks(steps[|steps| - 1])
  }

  /** No new call goes by the identity of one that asked for a permit; finished calls may end at any time. */
  ghost predicate NoReuse(steps: seq<Step>) {
    forall i :: 0 <= i < |steps| && steps[i].Begin? ==> steps[i].task !in Takers(steps[..i])
  }

  lemma NoReuseBefore(steps: seq<Step>)
    requires steps != [] && NoReuse(steps)
    ensures NoReuse(steps[..|steps| - 1])
  {
    var before := steps[..|steps| - 1];
    forall i | 0 <= i < |before| && before[i].Begin?
      ensures before[i].task !in Takers(before[..i])
    {
      assert before[..i] == steps[..i];
    }
  }

  lemma {:induction false} TakersAskOnce(start: State, steps: seq<Step>, s: State)
    requires Segment(start, steps, s) && NoReuse(steps)
    ensures Distinct(Takers(steps)) && AllPast(s.tasks, Takers(steps))
    ensures s.pool.permits + |Takers(steps)| >= start.pool.permits
    decreases |steps|
  {
    if steps != [] {
      var before, last := steps[..|steps| - 1], steps[|steps| - 1];
      var p: State :| Segment(start, before, p) && Enabled(p, last) && s == Apply(p, last);
      NoReuseBefore(steps);
      TakersAskOnce(start, before, p);
      StepAsksOnce(p, last, Takers(before));
    }
  }

  lemma {:induction false} DistinctWithin(xs: seq<TaskId>, within: set<TaskId>)
    requires Distinct(xs) && forall x :: x in xs ==> x in within
    ensures |xs| <= |within|
  {
    if xs != [] {
      DistinctWithin(xs[1..], within - {xs[0]});
    }
  }

  /**
   After `open_group` has seen at least as many free permits as it has targets, and while only its
   own connects ask for permits, none of them is refused for lack of capacity.
   */
  lemma GroupNeverRunsOutOfPermits(start: State, group: set<TaskId>, steps: seq<Step>, s: State, t: TaskId)
    requires |group| <= start.pool.permits
    requires Segment(start, steps, s)
    requires forall u :: u in Takers(steps) ==> u in group
    requires NoReuse(steps)
    requires t in group && Enabled(s, Moves(t, Acquire))
    ensures Apply(s, Moves(t, Acquire)).tasks[t].pc.Dialing?
  {
    TakersAskOnce(start, steps, s);
    DistinctWithin(Takers(steps), group - {t});
  }
}
