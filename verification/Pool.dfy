/**
 The connection pool of manager.rs and manager/jump.rs as a step system.

 Every lock region of the source is one step. Suspended callers are tasks with a program counter;
 `Arc` handles are the places that hold a wrapper (a name of the connection map, a task, a lease),
 so `strong_count` is the number of those places.
 */
module Pool {
  import opened Wrappers
  import opened ReuseKeys

  type Wrapper = nat
  type Signal = nat
  type TaskId = nat
  type LeaseId = nat
  type CloneId = nat

  /** The complete connection configuration; the pool only compares it. */
  datatype Config = Config(fields: seq<string>)

  /** `ManagedConnection` together with the liveness flag of its client. */
  datatype Managed = Managed(config: Config, key: ReuseKey, alive: bool, activeLeases: nat, creator: TaskId)

  /** `counted` falls when `Drop` has decremented the counter but not yet released the handle. */
  datatype Lease = Lease(target: Wrapper, counted: bool)

  datatype Handle = ByName(name: string) | ByTask(task: TaskId) | ByLease(lease: LeaseId)

  /** Which lookup of the connect loop is running. */
  datatype Stage = Early | AfterWait | Leading(signal: Signal)

  /** Why a wrapper was handed to the caller. */
  datatype How = Reused | Followed | Fresh | Unchecked

  datatype Outcome = Failed | Got(found: Wrapper, how: How)

  datatype Pc =
    | Lookup(stage: Stage)
    | Evicting(stage: Stage, observed: Wrapper)
    | Claiming
    | Waiting(signal: Signal)
    | Pruning(signal: Signal)
    | Acquiring(signal: Signal)
    | Dialing(signal: Signal)
    | Inserting(signal: Signal, made: Wrapper)
    | Collided(signal: Signal)
    | Leaving(signal: Signal, outcome: Outcome)
    | Returning(outcome: Outcome)
    | Closing
    | Gone

  /** Entry points: connect/connect_lease, connect_with_jump_auth, get/get_lease, maintenance calls. */
  datatype Entry = Connect | ConnectJump | Get | Maintain

  datatype Request = Request(entry: Entry, name: string, config: Config, auth: Authentication) {
    /** The pool compares and keeps the secret-free identity of the credential only. */
    function Key(): ReuseKey {
      KeyOf(auth)
    }
  }

  datatype Task = Task(req: Request, pc: Pc, held: set<Wrapper>, waited: bool)

  type Tasks = map<TaskId, Task>

  /** The manager's shared fields, the wrappers on the heap and the handles given out. */
  datatype Shared = Shared(
    permits: nat,
    bound: map<string, Wrapper>,
    connecting: map<string, Signal>,
    done: set<Signal>,
    nextSignal: Signal,
    managed: map<Wrapper, Managed>,
    nextWrapper: Wrapper,
    leases: map<LeaseId, Lease>,
    clones: map<CloneId, Wrapper>)

  datatype State = State(max: nat, pool: Shared, tasks: Tasks)

  // ---------- Reading the state ----------

  function Handles(p: Shared, tasks: Tasks, w: Wrapper): set<Handle> {
    (set n | n in p.bound && p.bound[n] == w :: ByName(n)) +
    (set t | t in tasks && w in tasks[t].held :: ByTask(t)) +
    (set l | l in p.leases && p.leases[l].target == w :: ByLease(l))
  }

  /** Raw `Arc<SshClient>` clones outside the wrapper. */
  function Clones(clones: map<CloneId, Wrapper>, w: Wrapper): set<CloneId> {
    set c | c in clones && clones[c] == w
  }

  /** The live lease handles on `w`. */
  function LeasesOn(leases: map<LeaseId, Lease>, w: Wrapper): set<LeaseId> {
    set l | l in leases && leases[l].counted && leases[l].target == w
  }

  predicate Alive(managed: map<Wrapper, Managed>, w: Wrapper) {
    w in managed && managed[w].alive
  }

  /** The eviction test of `prune_idle`, without the clock. */
  predicate OnlyManagerOwns(p: Shared, tasks: Tasks, w: Wrapper) {
    && |Handles(p, tasks, w)| == 1
    && Clones(p.clones, w) == {}
    && w in p.managed && p.managed[w].activeLeases == 0
  }

  /** The names `prune_idle` removes when the clock reports `expired` as idle for too long. */
  function Prunable(p: Shared, tasks: Tasks, expired: set<string>): set<string> {
    set n | n in p.bound && n in expired && OnlyManagerOwns(p, tasks, p.bound[n])
  }

  /** The signal a task holds as leader. */
  function Leads(pc: Pc): Option<Signal> {
    match pc
    case Lookup(stage) => if stage.Leading? then Some(stage.signal) else None
    case Evicting(stage, _) => if stage.Leading? then Some(stage.signal) else None
    case Pruning(g) => Some(g)
    case Acquiring(g) => Some(g)
    case Dialing(g) => Some(g)
    case Inserting(g, _) => Some(g)
    case Collided(g) => Some(g)
    case Leaving(g, _) => Some(g)
    case _ => None
  }

  /** Tasks that own a capacity permit of their own. */
  function Dialers(tasks: Tasks): set<TaskId> {
    set t | t in tasks && tasks[t].pc.Dialing?
  }

  /** The wrapper a task still needs at its program counter. */
  function Needed(pc: Pc): set<Wrapper> {
    match pc
    case Evicting(_, w) => {w}
    case Inserting(_, w) => {w}
    case Leaving(_, outcome) => if outcome.Got? then {outcome.found} else {}
    case Returning(outcome) => if outcome.Got? then {outcome.found} else {}
    case _ => {}
  }

  // ---------- Lock regions on the maps, shared with the imperative layer ----------

  datatype Claim = Lead(signal: Signal) | Wait(signal: Signal)

  /** `claim_connect`: the first claimant of a name leads with a fresh signal, later ones wait on it. */
  function ClaimOn(connecting: map<string, Signal>, name: string, next: Signal): Claim {
    if name in connecting then Wait(connecting[name]) else Lead(next)
  }

  /** `Drop for ConnectLeader`: only the leader's own signal is completed and removed. */
  predicate StillLeads(connecting: map<string, Signal>, name: string, g: Signal) {
    name in connecting && connecting[name] == g
  }

  /** `evict_dead` removes the entry only when it is the observed one and dead. */
  predicate EvictionApplies<W(==)>(bound: map<string, W>, name: string, observed: W, dead: bool) {
    name in bound && bound[name] == observed && dead
  }

  // ---------- Moves of one task ----------

  /** What a move leaves of the acting task and of the shared state. */
  datatype Effect = Effect(task: Task, pool: Shared)

  datatype Sighting = Miss | Dead(dead: Wrapper) | Hit(hit: Wrapper, how: How) | Refused

  /** `get_managed` and `get_reusable_managed_inner` under the read lock. */
  function LookFor(p: Shared, req: Request, stage: Stage): Sighting {
    if req.name !in p.bound then Miss
    else
      var w := p.bound[req.name];
      if !Alive(p.managed, w) then Dead(w)
      else
        var m := p.managed[w];
        if req.entry.Get? then Hit(w, Unchecked)
        else if m.config != req.config then Refused
        else if CanReuse(m.key, req.Key()) then Hit(w, Reused)
        else if stage.AfterWait? && m.key.NonReusable? && req.Key().NonReusable? then Hit(w, Followed)
        else Refused
  }

  function AfterMiss(req: Request, stage: Stage): Pc {
    match stage
    case Leading(g) => Pruning(g)
    case AfterWait => Lookup(Early)
    case Early => if req.entry.Get? then Returning(Failed) else Claiming
  }

  function Finish(stage: Stage, outcome: Outcome): Pc {
    if stage.Leading? then Leaving(stage.signal, outcome) else Returning(outcome)
  }

  function MoveLook(p: Shared, task: Task): Effect
    requires task.pc.Lookup?
  {
    var stage := task.pc.stage;
    match LookFor(p, task.req, stage)
    case Miss => Effect(task.(pc := AfterMiss(task.req, stage)), p)
    case Dead(w) => Effect(task.(pc := Evicting(stage, w), held := task.held + {w}), p)
    case Hit(w, how) => Effect(task.(pc := Finish(stage, Got(w, how)), held := task.held + {w}), p)
    case Refused => Effect(task.(pc := Finish(stage, Failed)), p)
  }

  /** Moves the handles of the names from the map to the task. */
  function Taken(bound: map<string, Wrapper>, names: set<string>): set<Wrapper> {
    set n | n in names && n in bound :: bound[n]
  }

  function MoveEvict(p: Shared, task: Task): Effect
    requires task.pc.Evicting?
  {
    var w := task.pc.observed;
    var names := if EvictionApplies(p.bound, task.req.name, w, !Alive(p.managed, w)) then {task.req.name} else {};
    Effect(task.(pc := AfterMiss(task.req, task.pc.stage), held := task.held + Taken(p.bound, names)),
           p.(bound := p.bound - names))
  }

  function MoveClaim(p: Shared, task: Task): Effect
    requires task.pc.Claiming?
  {
    match ClaimOn(p.connecting, task.req.name, p.nextSignal)
    case Wait(g) => Effect(task.(pc := Waiting(g)), p)
    case Lead(g) =>
      Effect(task.(pc := Lookup(Leading(g))), p.(connecting := p.connecting[task.req.name := g], nextSignal := g + 1))
  }

  function MoveWake(p: Shared, task: Task): Effect
    requires task.pc.Waiting?
  {
    var stage := if task.req.entry.ConnectJump? then Early else AfterWait;
    Effect(task.(pc := Lookup(stage), waited := true), p)
  }

  function MovePrune(p: Shared, task: Task, names: set<string>): Effect
    requires task.pc.Pruning?
  {
    Effect(task.(pc := Acquiring(task.pc.signal), held := task.held + Taken(p.bound, names)),
        p.(bound := p.bound - names))
  }

  function MoveAcquire(p: Shared, task: Task): Effect
    requires task.pc.Acquiring?
  {
    if p.permits > 0 then Effect(task.(pc := Dialing(task.pc.signal)), p.(permits := p.permits - 1))
    else Effect(task.(pc := Leaving(task.pc.signal, Failed)), p)
  }

  /** The transport exists: the permit moves into a new wrapper owned by the task. */
  function MoveDialOk(p: Shared, t: TaskId, task: Task): Effect
    requires task.pc.Dialing?
  {
    var w := p.nextWrapper;
    Effect(task.(pc := Inserting(task.pc.signal, w), held := task.held + {w}),
           p.(managed := p.managed[w := Managed(task.req.config, task.req.Key(), true, 0, t)], nextWrapper := w + 1))
  }

  function MoveDialFail(p: Shared, task: Task): Effect
    requires task.pc.Dialing?
  {
    Effect(task.(pc := Leaving(task.pc.signal, Failed)), p.(permits := p.permits + 1))
  }

  /** Whether the entry found under the write lock is kept instead of the fresh candidate. */
  predicate KeepsExisting(p: Shared, req: Request) {
    req.name in p.bound && (req.entry.ConnectJump? || Alive(p.managed, p.bound[req.name]))
  }

  function MoveInsert(p: Shared, task: Task): Effect
    requires task.pc.Inserting?
  {
    var name := task.req.name;
    if KeepsExisting(p, task.req) then Effect(task.(pc := Collided(task.pc.signal)), p)
    else
      Effect(task.(pc := Leaving(task.pc.signal, Got(task.pc.made, Fresh)), held := task.held + Taken(p.bound, {name})),
             p.(bound := p.bound[name := task.pc.made]))
  }

  function MoveLeaderDrop(p: Shared, task: Task): Effect
    requires task.pc.Leaving?
  {
    var g := task.pc.signal;
    Effect(task.(pc := Returning(task.pc.outcome)),
           if StillLeads(p.connecting, task.req.name, g)
           then p.(connecting := p.connecting - {task.req.name}, done := p.done + {g})
           else p)
  }

  /** Dropping the future: a leader still runs its guard, a dialer gives its permit back. */
  function MoveCancel(p: Shared, task: Task): Effect {
    Effect(task.(pc := if Leads(task.pc).Some? then Leaving(Leads(task.pc).value, Failed) else Gone),
           if task.pc.Dialing? then p.(permits := p.permits + 1) else p)
  }

  /** `acquire_lease` on a wrapper: a new counted handle. */
  function AddLease(p: Shared, l: LeaseId, w: Wrapper): Shared
    requires w in p.managed
  {
    var m := p.managed[w];
    p.(leases := p.leases[l := Lease(w, true)], managed := p.managed[w := m.(activeLeases := m.activeLeases + 1)])
  }

  /** `release_lease`: a checked decrement, before the handle itself is dropped. */
  function UncountLease(p: Shared, l: LeaseId): Shared
    requires l in p.leases && p.leases[l].target in p.managed
  {
    var w := p.leases[l].target;
    var m := p.managed[w];
    p.(leases := p.leases[l := Lease(w, false)],
       managed := p.managed[w := m.(activeLeases := if m.activeLeases == 0 then 0 else m.activeLeases - 1)])
  }

  /** Frees `w`, and with it its capacity permit, once no handle is left. */
  function Collect(p: Shared, tasks: Tasks, w: Wrapper): Shared {
    if w in p.managed && Handles(p, tasks, w) == {} then
      p.(managed := p.managed - {w}, permits := p.permits + 1)
    else p
  }

  function Kill(managed: map<Wrapper, Managed>, w: Wrapper): map<Wrapper, Managed> {
    if w in managed then managed[w := managed[w].(alive := false)] else managed
  }

  datatype Move =
    | Look
    | EvictDead
    | ClaimConnect
    | Wake
    | PruneIdle(expired: set<string>)
    | Acquire
    | DialOk
    | DialFail
    | Insert
    | LeaderDrop
    | Cancel
    | ToLease(lease: LeaseId)
    | ToClient(clone: CloneId)
    | CloseClient(wrapper: Wrapper)
    | DropArc(wrapper: Wrapper)

  predicate CanMove(p: Shared, task: Task, mv: Move) {
    match mv
    case Look => task.pc.Lookup?
    case EvictDead => task.pc.Evicting?
    case ClaimConnect => task.pc.Claiming?
    case Wake => task.pc.Waiting? && task.pc.signal in p.done
    case PruneIdle(_) => task.pc.Pruning?
    case Acquire => task.pc.Acquiring?
    case DialOk => task.pc.Dialing?
    case DialFail => task.pc.Dialing?
    case Insert => task.pc.Inserting?
    case LeaderDrop => task.pc.Leaving?
    case Cancel => !task.pc.Leaving?
    case ToLease(l) => task.pc.Returning? && task.pc.outcome.Got? && l !in p.leases
        && task.pc.outcome.found in p.managed
    case ToClient(c) => task.pc.Returning? && task.pc.outcome.Got? && c !in p.clones
    case CloseClient(w) => task.pc.Closing? && w in task.held
    case DropArc(w) => w in task.held && w !in Needed(task.pc)
  }

  function Act(p: Shared, tasks: Tasks, t: TaskId, mv: Move): Effect
    requires t in tasks && CanMove(p, tasks[t], mv)
  {
    var task := tasks[t];
    match mv
    case Look => MoveLook(p, task)
    case EvictDead => MoveEvict(p, task)
    case ClaimConnect => MoveClaim(p, task)
    case Wake => MoveWake(p, task)
    case PruneIdle(expired) => MovePrune(p, task, Prunable(p, tasks, expired))
    case Acquire => MoveAcquire(p, task)
    case DialOk => MoveDialOk(p, t, task)
    case DialFail => MoveDialFail(p, task)
    case Insert => MoveInsert(p, task)
    case LeaderDrop => MoveLeaderDrop(p, task)
    case Cancel => MoveCancel(p, task)
    case ToLease(l) => Effect(task.(pc := Gone), AddLease(p, l, task.pc.outcome.found))
    case ToClient(c) => Effect(task.(pc := Gone), p.(clones := p.clones[c := task.pc.outcome.found]))
    case CloseClient(w) => Effect(task, p.(managed := Kill(p.managed, w)))
    case DropArc(w) =>
      var task' := task.(held := task.held - {w});
      Effect(task', Collect(p, tasks[t := task'], w))
  }

  // ---------- Steps of the whole pool ----------

  datatype Step =
    | Begin(task: TaskId, req: Request)
    | Moves(task: TaskId, move: Move)
    | End(task: TaskId)
    | TimerPrune(task: TaskId, expired: set<string>)
    | Remove(task: TaskId, names: set<string>)
    | CloneLease(lease: LeaseId, copy: LeaseId)
    | ReleaseLease(lease: LeaseId)
    | FreeLease(lease: LeaseId)
    | CloneClient(wrapper: Wrapper, clone: CloneId)
    | DropClient(clone: CloneId)
    | Die(wrapper: Wrapper)

  const MAINTENANCE := Request(Maintain, "", Config([]), Auto([], None))

  predicate Enabled(s: State, a: Step) {
    var p := s.pool;
    match a
    case Begin(t, req) => t !in s.tasks && !req.entry.Maintain? && (req.entry.Get? || req.name != "")
    case Moves(t, mv) => t in s.tasks && CanMove(p, s.tasks[t], mv)
    case End(t) => t in s.tasks && s.tasks[t].held == {}
        && (s.tasks[t].pc.Gone? || s.tasks[t].pc.Closing? || s.tasks[t].pc == Returning(Failed))
    case TimerPrune(t, _) => t !in s.tasks
    case Remove(t, _) => t !in s.tasks
    case CloneLease(l, k) => l in p.leases && p.leases[l].counted && k !in p.leases && p.leases[l].target in p.managed
    case ReleaseLease(l) => l in p.leases && p.leases[l].counted && p.leases[l].target in p.managed
    case FreeLease(l) => l in p.leases && !p.leases[l].counted
    case CloneClient(w, c) => c !in p.clones && (Clones(p.clones, w) != {} || LeasesOn(p.leases, w) != {})
    case DropClient(c) => c in p.clones
    case Die(w) => w in p.managed
  }

  /** A maintenance task that has taken `names` out of the map. */
  function Maintainer(bound: map<string, Wrapper>, pc: Pc, names: set<string>): Task {
    Task(MAINTENANCE, pc, Taken(bound, names), false)
  }

  function Apply(s: State, a: Step): State
    requires Enabled(s, a)
  {
    var p := s.pool;
    match a
    case Begin(t, req) => s.(tasks := s.tasks[t := Task(req, Lookup(Early), {}, false)])
    case Moves(t, mv) => var e := Act(p, s.tasks, t, mv); State(s.max, e.pool, s.tasks[t := e.task])
    case End(t) => s.(tasks := s.tasks - {t})
    case TimerPrune(t, expired) =>
      var names := Prunable(p, s.tasks, expired);
      State(s.max, p.(bound := p.bound - names), s.tasks[t := Maintainer(p.bound, Gone, names)])
    case Remove(t, names) =>
      State(s.max, p.(bound := p.bound - names), s.tasks[t := Maintainer(p.bound, Closing, names)])
    case CloneLease(l, k) => s.(pool := AddLease(p, k, p.leases[l].target))
    case ReleaseLease(l) => s.(pool := UncountLease(p, l))
    case FreeLease(l) => s.(pool := Collect(p.(leases := p.leases - {l}), s.tasks, p.leases[l].target))
    case CloneClient(w, c) => s.(pool := p.(clones := p.clones[c := w]))
    case DropClient(c) => s.(pool := p.(clones := p.clones - {c}))
    case Die(w) => s.(pool := p.(managed := Kill(p.managed, w)))
  }

  function Init(max: nat): State {
    State(max, Shared(max, map[], map[], {}, 0, map[], 0, map[], map[]), map[])
  }

  /** `s` is reached from the empty pool by the given steps, in order. */
  ghost predicate Run(max: nat, steps: seq<Step>, s: State)
    decreases |steps|
  {
    if steps == [] then s == Init(max)
    else
      var last := steps[|steps| - 1];
      exists p: State :: Run(max, steps[..|steps| - 1], p) && Enabled(p, last) && s == Apply(p, last)
  }

  lemma RunExtends(max: nat, steps: seq<Step>, s: State, a: Step)
    requires Run(max, steps, s) && Enabled(s, a)
    ensures Run(max, steps + [a], Apply(s, a))
  {
    var longer := steps + [a];
    assert longer[..|longer| - 1] == steps && longer[|longer| - 1] == a;
  }
}
