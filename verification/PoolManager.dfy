/**
 `ConnectionManager` in the source's own form: an object whose lock regions update its fields.

 The regions come first, each equal to a move of the step system. The calls built from them keep
 `Valid()`: the object is always in a state that a run of the step system reaches, so the pool's
 theorems hold of it, and each call states what they say about it.
 */
module PoolManager {
  import opened ReuseKeys
  import opened Pool
  import opened PoolFlight
  import opened PoolTheorems

  /** A leader that leaves is still registered, so its drop fires the signal. */
  lemma LeaverStillLeads(max: nat, steps: seq<Step>, s: State, t: TaskId)
    requires Run(max, steps, s) && t in s.tasks && s.tasks[t].pc.Leaving?
    ensures StillLeads(s.pool.connecting, s.tasks[t].req.name, s.tasks[t].pc.signal)
  {
    EveryRunKeepsInv(max, steps, s);
    assert FlightView(s.tasks[t], s.pool.connecting, s.pool.done);
  }

  lemma NextWrapperIsFree(max: nat, steps: seq<Step>, s: State)
    requires Run(max, steps, s)
    ensures s.pool.nextWrapper !in s.pool.managed
  {
    EveryRunKeepsInv(max, steps, s);
  }

  class ConnectionManager {
    const max: nat
    var permits: nat
    var bound: map<string, Wrapper>
    var connecting: map<string, Signal>
    var done: set<Signal>
    var nextSignal: Signal
    var managed: map<Wrapper, Managed>
    var nextWrapper: Wrapper
    var leases: map<LeaseId, Lease>
    var clones: map<CloneId, Wrapper>
    /** The calls under way, with the handles they hold. */
    var tasks: Tasks
    /** What has happened so far. */
    ghost var steps: seq<Step>

    constructor (max: nat)
      ensures this.max == max && Valid() && Now() == Init(max) && steps == []
    {
      this.max := max;
      permits, bound, connecting, done := max, map[], map[], {};
      nextSignal, managed, nextWrapper, leases, clones := 0, map[], 0, map[], map[];
      tasks, steps := map[], [];
    }

    function View(): Shared
      reads this
    {
      Shared(permits, bound, connecting, done, nextSignal, managed, nextWrapper, leases, clones)
    }

    ghost function Now(): State
      reads this
    {
      State(max, View(), tasks)
    }

    ghost predicate Valid()
      reads this
    {
      Run(max, steps, Now())
    }

    /** The call was exactly this step. */
    twostate predicate Did(a: Step)
      reads this
    {
      Valid() && steps == old(steps) + [a] && Enabled(old(Now()), a) && Now() == Apply(old(Now()), a)
    }

    ghost method Record(before: State, a: Step)
      requires Run(max, steps, before) && Enabled(before, a) && Now() == Apply(before, a)
      modifies this`steps
      ensures Valid() && steps == old(steps) + [a]
    {
      RunExtends(max, steps, before, a);
      steps := steps + [a];
    }

    /** What holds between any two calls. */
    lemma Guarantees()
      requires Valid()
      ensures Inv(Now())
      ensures permits + |managed| + |Dialers(tasks)| == max && |bound| <= max - permits
      ensures forall w :: w in managed ==> managed[w].activeLeases == |LeasesOn(leases, w)|
      ensures forall t :: t in tasks ==> !tasks[t].pc.Collided?
    {
      EveryRunKeepsInv(max, steps, Now());
      CapacityIsConserved(max, steps, Now());
      forall w | w in managed
        ensures managed[w].activeLeases == |LeasesOn(leases, w)|
      {
        LeaseCounterIsExact(max, steps, Now(), w);
      }
      forall t | t in tasks
        ensures !tasks[t].pc.Collided?
      {
        InsertNeverCollides(max, steps, Now(), t);
      }
    }

    // ---------- Lock regions ----------

    /** `get_reusable_managed_inner`: a lookup under the read lock changes nothing but the caller. */
    method Look(task: Task) returns (task': Task)
      requires task.pc.Lookup?
      ensures Effect(task', View()) == MoveLook(View(), task)
    {
      var stage := task.pc.stage;
      if task.req.name !in bound {
        task' := task.(pc := AfterMiss(task.req, stage));
        return;
      }
      var w := bound[task.req.name];
      if !Alive(managed, w) {
        task' := task.(pc := Evicting(stage, w), held := task.held + {w});
        return;
      }
      var m := managed[w];
      var reusable := CanReuse(m.key, task.req.Key());
      var sameBatch := stage.AfterWait? && m.key.NonReusable? && task.req.Key().NonReusable?;
      if task.req.entry.Get? || (m.config == task.req.config && (reusable || sameBatch)) {
        var how := if task.req.entry.Get? then Unchecked else if reusable then Reused else Followed;
        task' := task.(pc := Finish(stage, Got(w, how)), held := task.held + {w});
      } else {
        task' := task.(pc := Finish(stage, Failed));
      }
    }

    method Evict(task: Task) returns (task': Task)
      requires task.pc.Evicting?
      modifies this`bound
      ensures Effect(task', View()) == MoveEvict(old(View()), task)
    {
      task' := task.(pc := AfterMiss(task.req, task.pc.stage));
      var name := task.req.name;
      if name in bound && bound[name] == task.pc.observed && !Alive(managed, bound[name]) {
        task' := task'.(held := task.held + {bound[name]});
        assert Taken(bound, {name}) == {bound[name]};
        bound := bound - {name};
      } else {
        assert Taken(bound, {}) == {} && bound - {} == bound;
      }
    }

    method Claim(task: Task) returns (task': Task)
      requires task.pc.Claiming?
      modifies this`connecting, this`nextSignal
      ensures Effect(task', View()) == MoveClaim(old(View()), task)
    {
      var name := task.req.name;
      if name in connecting {
        task' := task.(pc := Waiting(connecting[name]));
        return;
      }
      var signal := nextSignal;
      nextSignal := nextSignal + 1;
      connecting := connecting[name := signal];
      task' := task.(pc := Lookup(Leading(signal)));
    }

    /** `Drop for ConnectLeader`. */
    method Drop(task: Task) returns (task': Task)
      requires task.pc.Leaving?
      modifies this`connecting, this`done
      ensures Effect(task', View()) == MoveLeaderDrop(old(View()), task)
    {
      var name := task.req.name;
      if name in connecting && connecting[name] == task.pc.signal {
        done := done + {task.pc.signal};
        connecting := connecting - {name};
      }
      task' := task.(pc := Returning(task.pc.outcome));
    }

    /** First half of `prune_idle`: the names that pass the idle test. */
    method FindIdle(expired: set<string>) returns (idle: set<string>)
      ensures idle == Prunable(View(), tasks, expired)
    {
      idle := {};
      ghost var all := Prunable(View(), tasks, expired);
      var rest := bound.Keys;
      while rest != {}
        invariant rest <= bound.Keys
        invariant forall n :: n in idle <==> n in all && n !in rest
        decreases rest
      {
        var n :| n in rest;
        assert n in all <==> n in expired && OnlyManagerOwns(View(), tasks, bound[n]);
        if n in expired && OnlyManagerOwns(View(), tasks, bound[n]) {
          idle := idle + {n};
        }
        rest := rest - {n};
      }
      assert idle == all;
    }

    /** Second half of `prune_idle`, still under the write lock: remove the names one by one. */
    method TakeOut(names: set<string>) returns (removed: set<Wrapper>)
      requires names <= bound.Keys
      modifies this`bound
      ensures bound == old(bound) - names && removed == Taken(old(bound), names)
    {
      removed := {};
      var left := names;
      while left != {}
        invariant left <= names
        invariant bound == old(bound) - (names - left)
        invariant removed == Taken(old(bound), names - left)
        decreases left
      {
        var n :| n in left;
        assert n in bound && bound[n] == old(bound)[n];
        removed := removed + {bound[n]};
        bound := bound - {n};
        left := left - {n};
      }
      assert names - left == names;
    }

    /** `prune_idle` as a leader runs it. */
    method Prune(task: Task, expired: set<string>) returns (task': Task)
      requires task.pc.Pruning?
      modifies this`bound
      ensures Effect(task', View()) == MovePrune(old(View()), task, Prunable(old(View()), tasks, expired))
    {
      var idle := FindIdle(expired);
      var removed := TakeOut(idle);
      task' := task.(pc := Acquiring(task.pc.signal), held := task.held + removed);
    }

    method Acquire(task: Task) returns (task': Task)
      requires task.pc.Acquiring?
      modifies this`permits
      ensures Effect(task', View()) == MoveAcquire(old(View()), task)
    {
      if permits == 0 {
        task' := task.(pc := Leaving(task.pc.signal, Failed));
        return;
      }
      permits := permits - 1;
      task' := task.(pc := Dialing(task.pc.signal));
    }

    /** The insertion under the write lock, with the two rules for an entry that is already there. */
    method Place(task: Task) returns (task': Task)
      requires task.pc.Inserting?
      modifies this`bound
      ensures Effect(task', View()) == MoveInsert(old(View()), task)
    {
      var name := task.req.name;
      if name in bound && (task.req.entry.ConnectJump? || Alive(managed, bound[name])) {
        task' := task.(pc := Collided(task.pc.signal));
        return;
      }
      var replaced: set<Wrapper> := if name in bound then {bound[name]} else {};
      assert replaced == Taken(bound, {name});
      bound := bound[name := task.pc.made];
      task' := task.(pc := Leaving(task.pc.signal, Got(task.pc.made, Fresh)), held := task.held + replaced);
    }

    method CountLease(l: LeaseId, w: Wrapper)
      requires w in managed
      modifies this`leases, this`managed
      ensures View() == AddLease(old(View()), l, w)
    {
      leases := leases[l := Lease(w, true)];
      managed := managed[w := managed[w].(activeLeases := managed[w].activeLeases + 1)];
    }

    method UncountOne(l: LeaseId)
      requires l in leases && leases[l].target in managed
      modifies this`leases, this`managed
      ensures View() == UncountLease(old(View()), l)
    {
      var w := leases[l].target;
      if managed[w].activeLeases > 0 {
        managed := managed[w := managed[w].(activeLeases := managed[w].activeLeases - 1)];
      } else {
        assert managed == managed[w := managed[w].(activeLeases := 0)];
      }
      leases := leases[l := Lease(w, false)];
    }

    // ---------- Calls ----------

    method Begin(t: TaskId, req: Request)
      requires Valid() && Enabled(Now(), Step.Begin(t, req))
      modifies this`tasks, this`steps
      ensures Did(Step.Begin(t, req))
      ensures tasks == old(tasks)[t := Task(req, Lookup(Early), {}, false)]
    {
      ghost var before := Now();
      tasks := tasks[t := Task(req, Lookup(Early), {}, false)];
      Record(before, Step.Begin(t, req));
    }

    /** A lookup changes nothing but the caller; the transport goes exactly to those who may have it, and fits. */
    method LookUp(t: TaskId)
      requires Valid() && t in tasks && tasks[t].pc.Lookup?
      modifies this`tasks, this`steps
      ensures Did(Moves(t, Move.Look)) && View() == old(View())
      ensures t in tasks && tasks == old(tasks)[t := tasks[t]] && LookedUp(View(), old(tasks)[t], tasks[t])
      ensures tasks[t].pc.Returning? && tasks[t].pc.outcome.Got? && !tasks[t].req.entry.Get? ==>
                var w := tasks[t].pc.outcome.found;
                && w in managed && managed[w].config == tasks[t].req.config
                && (CarriesSecret(tasks[t].req.auth) ==>
                      managed[w].key == NonReusable && (managed[w].creator == t || tasks[t].waited))
    {
      ghost var before := Now();
      LookupExactly(View(), tasks, t);
      var task := Look(tasks[t]);
      tasks := tasks[t := task];
      Record(before, Moves(t, Move.Look));
      if task.pc.Returning? && task.pc.outcome.Got? && !task.req.entry.Get? {
        ReturnedTransportFits(max, steps, Now(), t, task.pc.outcome.found, task.pc.outcome.how);
      }
    }

    /** Only a dead wrapper leaves, even if the name was bound anew since it was observed. */
    method EvictDead(t: TaskId)
      requires Valid() && t in tasks && tasks[t].pc.Evicting?
      modifies this`bound, this`tasks, this`steps
      ensures Did(Moves(t, Move.EvictDead))
      ensures t in tasks && tasks[t].req == old(tasks)[t].req
      ensures var stage := old(tasks)[t].pc.stage;
              && (stage.Leading? ==> tasks[t].pc == Pruning(stage.signal))
              && (stage.AfterWait? ==> tasks[t].pc == Lookup(Early))
              && (stage.Early? ==> tasks[t].pc == if tasks[t].req.entry.Get? then Returning(Failed) else Claiming)
      ensures forall n :: n in bound ==> n in old(bound) && bound[n] == old(bound)[n]
      ensures forall n ::
                n in old(bound) ==>
                  (n !in bound <==>
                     && n == old(tasks)[t].req.name && old(bound)[n] == old(tasks)[t].pc.observed
                     && !Alive(managed, old(bound)[n]))
    {
      ghost var before := Now();
      var task := Evict(tasks[t]);
      tasks := tasks[t := task];
      Record(before, Moves(t, Move.EvictDead));
    }

    /** Whoever comes to lead a name is the only one to do so. */
    method ClaimConnect(t: TaskId)
      requires Valid() && t in tasks && tasks[t].pc.Claiming?
      modifies this`connecting, this`nextSignal, this`tasks, this`steps
      ensures Did(Moves(t, Move.ClaimConnect))
      ensures t in tasks && tasks[t].req == old(tasks)[t].req
      ensures var name := tasks[t].req.name;
              && name in connecting
              && (name in old(connecting) ==>
                    connecting == old(connecting) && tasks[t].pc == Waiting(connecting[name]))
              && (name !in old(connecting) ==> tasks[t].pc == Lookup(Leading(connecting[name])))
      ensures Leads(tasks[t].pc).Some? ==>
                forall u :: u in tasks && u != t && tasks[u].req.name == tasks[t].req.name ==> Leads(tasks[u].pc).None?
    {
      ghost var before := Now();
      var task := Claim(tasks[t]);
      tasks := tasks[t := task];
      Record(before, Moves(t, Move.ClaimConnect));
      if Leads(task.pc).Some? {
        forall u | u in tasks && tasks[u].req.name == task.req.name && Leads(tasks[u].pc).Some?
          ensures u == t
        {
          AtMostOneSetupPerName(max, steps, Now(), t, u);
        }
      }
    }

    method Wake(t: TaskId)
      requires Valid() && t in tasks && tasks[t].pc.Waiting? && tasks[t].pc.signal in done
      modifies this`tasks, this`steps
      ensures Did(Moves(t, Move.Wake)) && View() == old(View())
      ensures t in tasks && tasks[t].waited && tasks[t].req == old(tasks)[t].req
      ensures tasks[t].pc == Lookup(if tasks[t].req.entry == ConnectJump then Early else AfterWait)
    {
      ghost var before := Now();
      var task := tasks[t];
      tasks := tasks[t := task.(pc := Lookup(if task.req.entry.ConnectJump? then Early else AfterWait),
          waited := true)];
      Record(before, Moves(t, Move.Wake));
    }

    /** Nothing in use is swept away. */
    method PruneIdle(t: TaskId, expired: set<string>)
      requires Valid() && t in tasks && tasks[t].pc.Pruning?
      modifies this`bound, this`tasks, this`steps
      ensures Did(Moves(t, Move.PruneIdle(expired)))
      ensures t in tasks && tasks[t].pc == Acquiring(old(tasks)[t].pc.signal)
      ensures forall n :: n in bound ==> n in old(bound) && bound[n] == old(bound)[n]
      ensures forall n ::
                n in old(bound) ==> (n !in bound <==> n in expired && Untouched(old(Now()), old(bound)[n]))
    {
      ghost var before := Now();
      SweptExactly(max, steps, before, expired);
      var task := Prune(tasks[t], expired);
      tasks := tasks[t := task];
      Record(before, Moves(t, Move.PruneIdle(expired)));
    }

    method TryAcquire(t: TaskId)
      requires Valid() && t in tasks && tasks[t].pc.Acquiring?
      modifies this`permits, this`tasks, this`steps
      ensures Did(Moves(t, Move.Acquire))
      ensures t in tasks
      ensures var signal := old(tasks)[t].pc.signal;
              if old(permits) > 0 then tasks[t].pc == Dialing(signal) && permits == old(permits) - 1
              else tasks[t].pc == Leaving(signal, Failed) && permits == 0
      ensures permits + |managed| + |Dialers(tasks)| == max
    {
      ghost var before := Now();
      var task := Acquire(tasks[t]);
      tasks := tasks[t := task];
      Record(before, Moves(t, Move.Acquire));
      Guarantees();
    }

    /** The transport exists: its permit moves into a new wrapper. */
    method DialOk(t: TaskId)
      requires Valid() && t in tasks && tasks[t].pc.Dialing?
      modifies this`managed, this`nextWrapper, this`tasks, this`steps
      ensures Did(Moves(t, Move.DialOk)) && old(nextWrapper) !in old(managed)
      ensures var req := old(tasks)[t].req;
              managed == old(managed)[old(nextWrapper) := Managed(req.config, KeyOf(req.auth), true, 0, t)]
    {
      ghost var before := Now();
      NextWrapperIsFree(max, steps, before);
      var task, w := tasks[t], nextWrapper;
      managed := managed[w := Managed(task.req.config, task.req.Key(), true, 0, t)];
      nextWrapper := w + 1;
      tasks := tasks[t := task.(pc := Inserting(task.pc.signal, w), held := task.held + {w})];
      Record(before, Moves(t, Move.DialOk));
    }

    method DialFail(t: TaskId)
      requires Valid() && t in tasks && tasks[t].pc.Dialing?
      modifies this`permits, this`tasks, this`steps
      ensures Did(Moves(t, Move.DialFail)) && permits == old(permits) + 1 <= max
      ensures t in tasks && tasks[t].pc == Leaving(old(tasks)[t].pc.signal, Failed)
    {
      ghost var before := Now();
      permits := permits + 1;
      tasks := tasks[t := tasks[t].(pc := Leaving(tasks[t].pc.signal, Failed))];
      Record(before, Moves(t, Move.DialFail));
      Guarantees();
    }

    /** The name is always free at insertion, so the entry for it is the new wrapper. */
    method Insert(t: TaskId)
      requires Valid() && t in tasks && tasks[t].pc.Inserting?
      modifies this`bound, this`tasks, this`steps
      ensures Did(Moves(t, Move.Insert))
      ensures tasks[t].req.name !in old(bound) && bound == old(bound)[tasks[t].req.name := old(tasks)[t].pc.made]
      ensures tasks[t].pc == Leaving(old(tasks)[t].pc.signal, Got(old(tasks)[t].pc.made, Fresh))
    {
      ghost var before := Now();
      InsertNeverCollides(max, steps, before, t);
      var task := Place(tasks[t]);
      tasks := tasks[t := task];
      Record(before, Moves(t, Move.Insert));
    }

    /** Everyone who waited for this leader can go on. */
    method DropLeader(t: TaskId)
      requires Valid() && t in tasks && tasks[t].pc.Leaving?
      modifies this`connecting, this`done, this`tasks, this`steps
      ensures Did(Moves(t, Move.LeaderDrop))
      ensures t in tasks && tasks[t].pc == Returning(old(tasks)[t].pc.outcome)
      ensures tasks[t].req.name !in connecting
      ensures forall u ::
                u in tasks && tasks[u].pc.Waiting? && tasks[u].pc.signal == old(tasks)[t].pc.signal ==>
                  Enabled(Now(), Moves(u, Move.Wake))
    {
      ghost var before := Now();
      LeaverStillLeads(max, steps, before, t);
      var task := Drop(tasks[t]);
      tasks := tasks[t := task];
      Record(before, Moves(t, Move.LeaderDrop));
    }

    /** The caller's future is dropped. */
    method Cancel(t: TaskId)
      requires Valid() && t in tasks && !tasks[t].pc.Leaving?
      modifies this`permits, this`tasks, this`steps
      ensures Did(Moves(t, Move.Cancel))
      ensures t in tasks && permits == old(permits) + (if old(tasks)[t].pc.Dialing? then 1 else 0)
      ensures var signal := Leads(old(tasks)[t].pc);
              tasks[t].pc == if signal.Some? then Leaving(signal.value, Failed) else Gone
    {
      ghost var before := Now();
      var task := tasks[t];
      if task.pc.Dialing? {
        permits := permits + 1;
      }
      var leads := Leads(task.pc);
      tasks := tasks[t := task.(pc := if leads.Some? then Leaving(leads.value, Failed) else Gone)];
      Record(before, Moves(t, Move.Cancel));
    }

    /** `connect_lease` and `get_lease` hand out a counted lease. */
    method ToLease(t: TaskId, l: LeaseId)
      requires Valid() && Enabled(Now(), Moves(t, Move.ToLease(l)))
      modifies this`leases, this`managed, this`tasks, this`steps
      ensures Did(Moves(t, Move.ToLease(l)))
      ensures leases == old(leases)[l := Lease(old(tasks)[t].pc.outcome.found, true)]
    {
      ghost var before := Now();
      CountLease(l, tasks[t].pc.outcome.found);
      tasks := tasks[t := tasks[t].(pc := Gone)];
      Record(before, Moves(t, Move.ToLease(l)));
    }

    /** `connect` and `get` hand out a raw client. */
    method ToClient(t: TaskId, c: CloneId)
      requires Valid() && Enabled(Now(), Moves(t, Move.ToClient(c)))
      modifies this`clones, this`tasks, this`steps
      ensures Did(Moves(t, Move.ToClient(c)))
      ensures clones == old(clones)[c := old(tasks)[t].pc.outcome.found]
    {
      ghost var before := Now();
      clones := clones[c := tasks[t].pc.outcome.found];
      tasks := tasks[t := tasks[t].(pc := Gone)];
      Record(before, Moves(t, Move.ToClient(c)));
    }

    method CloseClient(t: TaskId, w: Wrapper)
      requires Valid() && Enabled(Now(), Moves(t, Move.CloseClient(w)))
      modifies this`managed, this`steps
      ensures Did(Moves(t, Move.CloseClient(w))) && !Alive(managed, w)
    {
      ghost var before := Now();
      managed := Kill(managed, w);
      assert tasks[t := tasks[t]] == tasks;
      Record(before, Moves(t, Move.CloseClient(w)));
    }

    /** Frees the wrapper and its permit when the last handle is gone. */
    method CollectUnheld(w: Wrapper)
      modifies this`managed, this`permits
      ensures View() == Collect(old(View()), tasks, w)
    {
      if w in managed && Handles(View(), tasks, w) == {} {
        managed := managed - {w};
        permits := permits + 1;
      }
    }

    method DropArc(t: TaskId, w: Wrapper)
      requires Valid() && Enabled(Now(), Moves(t, Move.DropArc(w)))
      modifies this`managed, this`permits, this`tasks, this`steps
      ensures Did(Moves(t, Move.DropArc(w)))
      ensures permits + |managed| + |Dialers(tasks)| == max
    {
      ghost var before := Now();
      tasks := tasks[t := tasks[t].(held := tasks[t].held - {w})];
      CollectUnheld(w);
      Record(before, Moves(t, Move.DropArc(w)));
      Guarantees();
    }

    method End(t: TaskId)
      requires Valid() && Enabled(Now(), Step.End(t))
      modifies this`tasks, this`steps
      ensures Did(Step.End(t))
    {
      ghost var before := Now();
      tasks := tasks - {t};
      Record(before, Step.End(t));
    }

    /** The daemon's timer: nothing in use is swept away. */
    method TimerPrune(t: TaskId, expired: set<string>)
      requires Valid() && t !in tasks
      modifies this`bound, this`tasks, this`steps
      ensures Did(Step.TimerPrune(t, expired))
      ensures forall n :: n in bound ==> n in old(bound) && bound[n] == old(bound)[n]
      ensures forall n ::
                n in old(bound) ==> (n !in bound <==> n in expired && Untouched(old(Now()), old(bound)[n]))
    {
      ghost var before := Now();
      SweptExactly(max, steps, before, expired);
      var idle := FindIdle(expired);
      var removed := TakeOut(idle);
      tasks := tasks[t := Task(MAINTENANCE, Gone, removed, false)];
      Record(before, Step.TimerPrune(t, expired));
    }

    /** `remove` and `close_all`. */
    method Remove(t: TaskId, names: set<string>)
      requires Valid() && t !in tasks
      modifies this`bound, this`tasks, this`steps
      ensures Did(Step.Remove(t, names)) && bound == old(bound) - names
    {
      ghost var before := Now();
      var present := set n | n in names && n in bound;
      assert Taken(bound, present) == Taken(bound, names) && bound - present == bound - names;
      var removed := TakeOut(present);
      tasks := tasks[t := Task(MAINTENANCE, Closing, removed, false)];
      Record(before, Step.Remove(t, names));
    }

    method CloneLease(l: LeaseId, k: LeaseId)
      requires Valid() && Enabled(Now(), Step.CloneLease(l, k))
      modifies this`leases, this`managed, this`steps
      ensures Did(Step.CloneLease(l, k)) && leases == old(leases)[k := Lease(old(leases)[l].target, true)]
    {
      ghost var before := Now();
      CountLease(k, leases[l].target);
      Record(before, Step.CloneLease(l, k));
    }

    /** The counter is positive before and stays exact, so the checked subtraction never fails. */
    method ReleaseLease(l: LeaseId)
      requires Valid() && Enabled(Now(), Step.ReleaseLease(l))
      modifies this`leases, this`managed, this`steps
      ensures Did(Step.ReleaseLease(l))
      ensures var w := old(leases)[l].target;
              && w in managed && managed[w].activeLeases + 1 == old(managed)[w].activeLeases
              && managed[w].activeLeases == |LeasesOn(leases, w)|
    {
      ghost var before := Now();
      LeaseCounterIsExact(max, steps, before, leases[l].target);
      assert Enabled(before, Step.ReleaseLease(l));
      UncountOne(l);
      Record(before, Step.ReleaseLease(l));
      Guarantees();
    }

    method FreeLease(l: LeaseId)
      requires Valid() && Enabled(Now(), Step.FreeLease(l))
      modifies this`leases, this`managed, this`permits, this`steps
      ensures Did(Step.FreeLease(l))
      ensures permits + |managed| + |Dialers(tasks)| == max
    {
      ghost var before := Now();
      var w := leases[l].target;
      leases := leases - {l};
      CollectUnheld(w);
      Record(before, Step.FreeLease(l));
      Guarantees();
    }

    method CloneClient(w: Wrapper, c: CloneId)
      requires Valid() && Enabled(Now(), Step.CloneClient(w, c))
      modifies this`clones, this`steps
      ensures Did(Step.CloneClient(w, c)) && clones == old(clones)[c := w]
    {
      ghost var before := Now();
      clones := clones[c := w];
      Record(before, Step.CloneClient(w, c));
    }

    method DropClient(c: CloneId)
      requires Valid() && c in clones
      modifies this`clones, this`steps
      ensures Did(Step.DropClient(c)) && clones == old(clones) - {c}
    {
      ghost var before := Now();
      clones := clones - {c};
      Record(before, Step.DropClient(c));
    }

    /** The transport dies, seen from the pool at any time. */
    method Die(w: Wrapper)
      requires Valid() && w in managed
      modifies this`managed, this`steps
      ensures Did(Step.Die(w)) && managed == old(managed)[w := old(managed)[w].(alive := false)]
    {
      ghost var before := Now();
      managed := Kill(managed, w);
      Record(before, Step.Die(w));
    }

    /** A move of a call under way. */
    method PerformMove(t: TaskId, mv: Move)
      requires Valid() && Enabled(Now(), Moves(t, mv))
      modifies this
      ensures Did(Moves(t, mv))
    {
      match mv
      case Look => LookUp(t);
      case EvictDead => EvictDead(t);
      case ClaimConnect => ClaimConnect(t);
      case Wake => Wake(t);
      case PruneIdle(expired) => PruneIdle(t, expired);
      case Acquire => TryAcquire(t);
      case DialOk => DialOk(t);
      case DialFail => DialFail(t);
      case Insert => Insert(t);
      case LeaderDrop => DropLeader(t);
      case Cancel => Cancel(t);
      case ToLease(l) => ToLease(t, l);
      case ToClient(c) => ToClient(t, c);
      case CloseClient(w) => CloseClient(t, w);
      case DropArc(w) => DropArc(t, w);
    }

    /** Every step of the step system is a call of the object. */
    method Perform(a: Step)
      requires Valid() && Enabled(Now(), a)
      modifies this
      ensures Did(a)
    {
      match a
      case Begin(t, req) => Begin(t, req);
      case Moves(t, mv) => PerformMove(t, mv);
      case End(t) => End(t);
      case TimerPrune(t, expired) => TimerPrune(t, expired);
      case Remove(t, names) => Remove(t, names);
      case CloneLease(l, k) => CloneLease(l, k);
      case ReleaseLease(l) => ReleaseLease(l);
      case FreeLease(l) => FreeLease(l);
      case CloneClient(w, c) => CloneClient(w, c);
      case DropClient(c) => DropClient(c);
      case Die(w) => Die(w);
    }
  }

  lemma {:induction false} RunIsDetermined(max: nat, steps: seq<Step>, a: State, b: State)
    requires Run(max, steps, a) && Run(max, steps, b)
    ensures a == b
    decreases |steps|
  {
    if steps != [] {
      var before, last := steps[..|steps| - 1], steps[|steps| - 1];
      var p: State :| Run(max, before, p) && Enabled(p, last) && a == Apply(p, last);
      var q: State :| Run(max, before, q) && Enabled(q, last) && b == Apply(q, last);
      RunIsDetermined(max, before, p, q);
    }
  }

  /** The state in which step `i` of a run is taken. */
  lemma {:induction false} StepOfRun(max: nat, steps: seq<Step>, s: State, i: nat) returns (p: State)
    requires Run(max, steps, s) && i < |steps|
    ensures Run(max, steps[..i], p) && Enabled(p, steps[i])
    decreases |steps|
  {
    var n := |steps| - 1;
    var q: State :| Run(max, steps[..n], q) && Enabled(q, steps[n]) && s == Apply(q, steps[n]);
    if i == n {
      p := q;
    } else {
      p := StepOfRun(max, steps[..n], q, i);
      assert steps[..n][..i] == steps[..i];
    }
  }

  /** A fresh object can follow every run of the step system, and ends where the run ends. */
  method Follow(max: nat, plan: seq<Step>, ghost s: State) returns (m: ConnectionManager)
    requires Run(max, plan, s)
    ensures fresh(m) && m.max == max && m.Valid() && m.steps == plan && m.Now() == s
  {
    m := new ConnectionManager(max);
    for i := 0 to |plan|
      invariant fresh(m) && m.max == max && m.Valid() && m.steps == plan[..i]
    {
      ghost var p := StepOfRun(max, plan, s, i);
      RunIsDetermined(max, plan[..i], p, m.Now());
      m.Perform(plan[i]);
      assert plan[..i + 1] == plan[..i] + [plan[i]];
    }
    assert plan[..|plan|] == plan;
    RunIsDetermined(max, plan, s, m.Now());
  }
}
