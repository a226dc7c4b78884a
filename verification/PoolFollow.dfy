/**
 What a caller that waited is given: a transport that was bound under its name only after the
 caller's own first lookup had found the name unbound or dead.
 */
module PoolFollow {
  import opened ReuseKeys
  import opened Pool
  import opened PoolPointers
  import opened PoolResults
  import opened PoolTheorems

  /** The name has no live transport. */
  predicate Vacant(p: Shared, name: string) {
    name in p.bound ==> !Alive(p.managed, p.bound[name])
  }

  ghost predicate MissedIn(p: State, t: TaskId, name: string) {
    t in p.tasks && p.tasks[t].pc == Lookup(Early) && p.tasks[t].req.name == name && Vacant(p.pool, name)
  }

  ghost predicate SameCall(steps: seq<Step>, i: nat, t: TaskId) {
    forall k :: i < k < |steps| ==> !(steps[k].Begin? && steps[k].task == t)
  }

  /** Step `i` is the early lookup of the present call `t`, and it finds the name vacant. */
  ghost predicate Missed(max: nat, steps: seq<Step>, i: nat, t: TaskId, name: string) {
    && i < |steps| && steps[i] == Moves(t, Look) && SameCall(steps, i, t)
    && exists p :: Run(max, steps[..i], p) && MissedIn(p, t, name)
  }

  ghost predicate PlacedIn(p: State, u: TaskId, w: Wrapper, name: string) {
    u in p.tasks && p.tasks[u].pc.Inserting? && p.tasks[u].pc.made == w && p.tasks[u].req.name == name
  }

  /** Step `j` binds `w` under the name. */
  ghost predicate Placed(max: nat, steps: seq<Step>, j: nat, w: Wrapper, name: string) {
    && j < |steps| && steps[j].Moves? && steps[j].move == Insert
    && exists p :: Run(max, steps[..j], p) && PlacedIn(p, steps[j].task, w, name)
  }

  ghost predicate PlacedAfter(max: nat, steps: seq<Step>, i: nat, w: Wrapper, name: string) {
    exists j :: i < j && Placed(max, steps, j, w, name)
  }

  /** The early lookup, after which any live transport under the name was bound. */
  ghost predicate WaitsSince(max: nat, steps: seq<Step>, p: Shared, i: nat, t: TaskId, name: string) {
    && Missed(max, steps, i, t, name)
    && (!Vacant(p, name) ==> PlacedAfter(max, steps, i, p.bound[name], name))
  }

  ghost predicate BoundSince(max: nat, steps: seq<Step>, i: nat, t: TaskId, name: string, w: Wrapper) {
    Missed(max, steps, i, t, name) && PlacedAfter(max, steps, i, w, name)
  }

  /** Where a call stands between its early lookup and the lookup after waiting. */
  predicate Between(pc: Pc) {
    || pc.Claiming? || pc.Waiting? || pc == Lookup(AfterWait)
    || (pc.Evicting? && !pc.stage.Leading?)
  }

  predicate Follows(pc: Pc) {
    (pc.Returning? || pc.Leaving?) && pc.outcome.Got? && pc.outcome.how == Followed
  }

  ghost predicate Waited(max: nat, steps: seq<Step>, p: Shared, t: TaskId, name: string) {
    exists i :: WaitsSince(max, steps, p, i, t, name)
  }

  ghost predicate FollowedLater(max: nat, steps: seq<Step>, t: TaskId, name: string, w: Wrapper) {
    exists i :: BoundSince(max, steps, i, t, name, w)
  }

  ghost predicate FollowView(max: nat, steps: seq<Step>, p: Shared, t: TaskId, name: string, pc: Pc) {
    && (Between(pc) ==> Waited(max, steps, p, t, name))
    && (Follows(pc) ==> FollowedLater(max, steps, t, name, pc.outcome.found))
  }

  // ---------- The past does not change ----------

  lemma MissedStays(max: nat, steps: seq<Step>, a: Step, i: nat, t: TaskId, name: string)
    requires Missed(max, steps, i, t, name) && !(a.Begin? && a.task == t)
    ensures Missed(max, steps + [a], i, t, name)
  {
    assert (steps + [a])[..i] == steps[..i];
  }

  lemma PlacedStays(max: nat, steps: seq<Step>, a: Step, i: nat, w: Wrapper, name: string)
    requires PlacedAfter(max, steps, i, w, name)
    ensures PlacedAfter(max, steps + [a], i, w, name)
  {
    var j :| i < j && Placed(max, steps, j, w, name);
    assert (steps + [a])[..j] == steps[..j];
    assert Placed(max, steps + [a], j, w, name);
  }

  lemma MissedNow(max: nat, steps: seq<Step>, s: State, t: TaskId)
    requires Run(max, steps, s) && t in s.tasks && MissedIn(s, t, s.tasks[t].req.name)
    ensures Missed(max, steps + [Moves(t, Look)], |steps|, t, s.tasks[t].req.name)
  {
    var longer := steps + [Moves(t, Look)];
    assert longer[..|steps|] == steps;
  }

  lemma PlacedNow(max: nat, steps: seq<Step>, s: State, u: TaskId, i: nat)
    requires Run(max, steps, s) && u in s.tasks && s.tasks[u].pc.Inserting? && i < |steps|
    ensures PlacedAfter(max, steps + [Moves(u, Insert)], i, s.tasks[u].pc.made, s.tasks[u].req.name)
  {
    var longer := steps + [Moves(u, Insert)];
    assert longer[..|steps|] == steps;
    assert Placed(max, longer, |steps|, s.tasks[u].pc.made, s.tasks[u].req.name);
  }

  // ---------- Every step keeps it ----------

  /** The binding of `name` is the same, gone or dead, or it is the one this step inserts. */
  ghost predicate BindingFrom(s: State, a: Step, q: Shared, name: string) {
    || Vacant(q, name)
    || (!Vacant(s.pool, name) && q.bound[name] == s.pool.bound[name])
    || (a.Moves? && a.move == Insert && a.task in s.tasks && s.tasks[a.task].pc.Inserting?
        && s.tasks[a.task].req.name == name && q.bound[name] == s.tasks[a.task].pc.made)
  }

  lemma FadesFrom(s: State, a: Step, q: Shared, name: string)
    requires Fades(s.pool, q) && SharedPointers(s.pool)
    ensures BindingFrom(s, a, q, name)
  {
  }

  lemma StepBinding(max: nat, steps: seq<Step>, s: State, a: Step, name: string)
    requires Run(max, steps, s) && Enabled(s, a)
    ensures BindingFrom(s, a, Apply(s, a).pool, name)
  {
    EveryRunKeepsInv(max, steps, s);
    if a.Moves? {
      if a.move != Insert {
        MoveFades(s.pool, s.tasks, a.task, a.move);
        FadesFrom(s, a, Apply(s, a).pool, name);
      }
    } else {
      StepFades(s, a);
      FadesFrom(s, a, Apply(s, a).pool, name);
    }
  }

  lemma WaitingGoesOn(max: nat, steps: seq<Step>, s: State, a: Step, q: Shared, t: TaskId, name: string)
    requires Run(max, steps, s) && Waited(max, steps, s.pool, t, name) && !(a.Begin? && a.task == t)
    requires BindingFrom(s, a, q, name)
    ensures Waited(max, steps + [a], q, t, name)
  {
    var i :| WaitsSince(max, steps, s.pool, i, t, name);
    MissedStays(max, steps, a, i, t, name);
    if !Vacant(q, name) {
      if !Vacant(s.pool, name) && q.bound[name] == s.pool.bound[name] {
        PlacedStays(max, steps, a, i, q.bound[name], name);
      } else {
        PlacedNow(max, steps, s, a.task, i);
      }
    }
    assert WaitsSince(max, steps + [a], q, i, t, name);
  }

  lemma FollowingStays(max: nat, steps: seq<Step>, a: Step, t: TaskId, name: string, w: Wrapper)
    requires FollowedLater(max, steps, t, name, w) && !(a.Begin? && a.task == t)
    ensures FollowedLater(max, steps + [a], t, name, w)
  {
    var i :| BoundSince(max, steps, i, t, name, w);
    MissedStays(max, steps, a, i, t, name);
    PlacedStays(max, steps, a, i, w, name);
    assert BoundSince(max, steps + [a], i, t, name, w);
  }

  /** `next` claims nothing about the past that `pc` does not. */
  predicate ClaimsLess(next: Pc, pc: Pc) {
    && (Between(next) ==> Between(pc))
    && (Follows(next) ==> Follows(pc) && next.outcome == pc.outcome)
  }

  lemma Carry(max: nat, steps: seq<Step>, s: State, a: Step, q: Shared, t: TaskId, name: string, pc: Pc, next: Pc)
    requires Run(max, steps, s) && FollowView(max, steps, s.pool, t, name, pc) && ClaimsLess(next, pc)
    requires BindingFrom(s, a, q, name) && !(a.Begin? && a.task == t)
    ensures FollowView(max, steps + [a], q, t, name, next)
  {
    if Between(next) {
      WaitingGoesOn(max, steps, s, a, q, t, name);
    }
    if Follows(next) {
      FollowingStays(max, steps, a, t, name, next.outcome.found);
    }
  }

  /** Only lookups start or end a wait. */
  lemma MoverClaimsLess(p: Shared, tasks: Tasks, t: TaskId, mv: Move)
    requires t in tasks && CanMove(p, tasks[t], mv) && !mv.Look?
    ensures ClaimsLess(Act(p, tasks, t, mv).task.pc, tasks[t].pc) && Act(p, tasks, t, mv).task.req == tasks[t].req
  {
  }

  lemma LookerPc(p: Shared, task: Task)
    requires task.pc.Lookup?
    ensures var next := MoveLook(p, task).task;
            && next.req == task.req
            && (Between(next.pc) ==>
                  task.pc == Lookup(AfterWait) || (task.pc == Lookup(Early) && Vacant(p, task.req.name)))
            && (Follows(next.pc) ==> task.pc == Lookup(AfterWait) && !Vacant(p, task.req.name)
                                     && next.pc.outcome.found == p.bound[task.req.name])
  {
  }

  lemma WaitStarts(max: nat, steps: seq<Step>, s: State, t: TaskId)
    requires Run(max, steps, s) && t in s.tasks && MissedIn(s, t, s.tasks[t].req.name)
    ensures Waited(max, steps + [Moves(t, Look)], s.pool, t, s.tasks[t].req.name)
  {
    MissedNow(max, steps, s, t);
    assert WaitsSince(max, steps + [Moves(t, Look)], s.pool, |steps|, t, s.tasks[t].req.name);
  }

  lemma WaitEnds(max: nat, steps: seq<Step>, p: Shared, t: TaskId, name: string)
    requires Waited(max, steps, p, t, name) && !Vacant(p, name)
    ensures FollowedLater(max, steps, t, name, p.bound[name])
  {
    var i :| WaitsSince(max, steps, p, i, t, name);
    assert BoundSince(max, steps, i, t, name, p.bound[name]);
  }

  /** The early lookup starts the wait, the lookup after waiting ends it. */
  lemma LookerView(max: nat, steps: seq<Step>, s: State, t: TaskId, task: Task)
    requires Run(max, steps, s) && t in s.tasks && task == s.tasks[t] && task.pc.Lookup?
    requires FollowView(max, steps, s.pool, t, task.req.name, task.pc)
    ensures FollowView(max, steps + [Moves(t, Look)], s.pool, t, task.req.name, MoveLook(s.pool, task).task.pc)
  {
    var a, name, next := Moves(t, Look), task.req.name, MoveLook(s.pool, task).task.pc;
    LookerPc(s.pool, task);
    if task.pc == Lookup(Early) && Vacant(s.pool, name) {
      WaitStarts(max, steps, s, t);
    } else if task.pc == Lookup(AfterWait) {
      assert BindingFrom(s, a, s.pool, name);
      WaitingGoesOn(max, steps, s, a, s.pool, t, name);
      if Follows(next) {
        WaitEnds(max, steps + [a], s.pool, t, name);
      }
    }
  }

  lemma NewTask(s: State, a: Step, t: TaskId)
    requires Enabled(s, a) && t in Apply(s, a).tasks && t !in s.tasks
    ensures !Between(Apply(s, a).tasks[t].pc) && !Follows(Apply(s, a).tasks[t].pc)
  {
  }

  lemma OtherTask(s: State, a: Step, t: TaskId)
    requires Enabled(s, a) && t in Apply(s, a).tasks && t in s.tasks && !(a.Moves? && a.task == t)
    ensures Apply(s, a).tasks[t] == s.tasks[t] && !(a.Begin? && a.task == t)
  {
  }

  lemma MoverView(max: nat, steps: seq<Step>, s: State, t: TaskId, mv: Move)
    requires Run(max, steps, s) && t in s.tasks && CanMove(s.pool, s.tasks[t], mv)
    requires FollowView(max, steps, s.pool, t, s.tasks[t].req.name, s.tasks[t].pc)
    ensures var e := Act(s.pool, s.tasks, t, mv);
            FollowView(max, steps + [Moves(t, mv)], e.pool, t, e.task.req.name, e.task.pc)
  {
    var a, task := Moves(t, mv), s.tasks[t];
    if mv.Look? {
      LookerPc(s.pool, task);
      LookerView(max, steps, s, t, task);
    } else {
      MoverClaimsLess(s.pool, s.tasks, t, mv);
      StepBinding(max, steps, s, a, task.req.name);
      var e := Act(s.pool, s.tasks, t, mv);
      Carry(max, steps, s, a, e.pool, t, task.req.name, task.pc, e.task.pc);
    }
  }

  ghost predicate HasView(max: nat, steps: seq<Step>, s: State, t: TaskId) {
    t in s.tasks ==> FollowView(max, steps, s.pool, t, s.tasks[t].req.name, s.tasks[t].pc)
  }

  lemma FollowStep(max: nat, steps: seq<Step>, s: State, a: Step, t: TaskId)
    requires Run(max, steps, s) && Enabled(s, a) && HasView(max, steps, s, t)
    ensures HasView(max, steps + [a], Apply(s, a), t)
  {
    if t in Apply(s, a).tasks {
      if a.Moves? && a.task == t {
        MoverView(max, steps, s, t, a.move);
      } else if t in s.tasks {
        OtherTask(s, a, t);
        StepBinding(max, steps, s, a, s.tasks[t].req.name);
        Carry(max, steps, s, a, Apply(s, a).pool, t, s.tasks[t].req.name, s.tasks[t].pc, s.tasks[t].pc);
      } else {
        NewTask(s, a, t);
      }
    }
  }

  lemma {:induction false} EveryRunFollows(max: nat, steps: seq<Step>, s: State, t: TaskId)
    requires Run(max, steps, s)
    ensures HasView(max, steps, s, t)
    decreases |steps|
  {
    if steps != [] {
      var before, last := steps[..|steps| - 1], steps[|steps| - 1];
      var p: State :| Run(max, before, p) && Enabled(p, last) && s == Apply(p, last);
      EveryRunFollows(max, before, p, t);
      FollowStep(max, before, p, last, t);
      assert steps == before + [last];
    }
  }

  /**
   A transport handed out because the caller waited was bound under the caller's name after the
   caller's own early lookup had found no live transport there.
   */
  lemma FollowedWasBoundLater(max: nat, steps: seq<Step>, s: State, t: TaskId, w: Wrapper)
    requires Run(max, steps, s) && t in s.tasks && s.tasks[t].pc == Returning(Got(w, Followed))
    ensures var name := s.tasks[t].req.name;
            exists i, j :: Missed(max, steps, i, t, name) && i < j && Placed(max, steps, j, w, name)
  {
    EveryRunFollows(max, steps, s, t);
    var name := s.tasks[t].req.name;
    assert FollowedLater(max, steps, t, name, w);
    var i :| BoundSince(max, steps, i, t, name, w);
    var j :| i < j && Placed(max, steps, j, w, name);
    assert Missed(max, steps, i, t, name);
  }

  // ---------- Bound later, but not always made later ----------

  function SomeRequest(): Request {
    Request(Connect, "n", Config([]), Password("x"))
  }

  function Caller(pc: Pc, held: set<Wrapper>, waited: bool): Task {
    Task(SomeRequest(), pc, held, waited)
  }

  function SomeWrapper(): Managed {
    Managed(Config([]), NonReusable, true, 0, 0)
  }

  /** While the first call sets up its transport. */
  function Leading(permits: nat, tasks: Tasks): State {
    State(1, Shared(permits, map[], map["n" := 0], {}, 1, map[], 0, map[], map[]), tasks)
  }

  /** Once the transport exists. */
  function Made(bound: map<string, Wrapper>, connecting: map<string, Signal>, done: set<Signal>, tasks: Tasks): State {
    State(1, Shared(0, bound, connecting, done, 1, map[0 := SomeWrapper()], 1, map[], map[]), tasks)
  }

  lemma Then(steps: seq<Step>, s: State, a: Step, next: State)
    requires Run(1, steps, s) && Enabled(s, a) && Apply(s, a) == next
    ensures Run(1, steps + [a], next)
  {
    RunExtends(1, steps, s, a);
  }

  lemma NothingTaken(held: set<Wrapper>, bound: map<string, Wrapper>, names: set<string>)
    requires bound == map[]
    ensures held + Taken(bound, names) == held
  {
  }

  lemma JustOne(w: Wrapper)
    ensures {} + {w} == {w}
  {
  }

  lemma FirstCallLeads(steps: seq<Step>)
    requires steps == [Begin(0, SomeRequest()), Moves(0, Look), Moves(0, ClaimConnect)]
    ensures Run(1, steps, Leading(1, map[0 := Caller(Lookup(Stage.Leading(0)), {}, false)]))
  {
    var s0 := Init(1);
    var s1 := s0.(tasks := map[0 := Caller(Lookup(Early), {}, false)]);
    var s2 := s0.(tasks := map[0 := Caller(Claiming, {}, false)]);
    Then([], s0, steps[0], s1);
    Then([] + [steps[0]], s1, steps[1], s2);
    Then([] + [steps[0]] + [steps[1]], s2, steps[2], Leading(1, map[0 := Caller(Lookup(Stage.Leading(0)), {}, false)]));
    assert steps == [] + [steps[0]] + [steps[1]] + [steps[2]];
  }

  lemma FirstCallPrunes(before: seq<Step>)
    requires Run(1, before, Leading(1, map[0 := Caller(Lookup(Stage.Leading(0)), {}, false)]))
    ensures Run(1, before + [Moves(0, Look)] + [Moves(0, PruneIdle({}))],
                Leading(1, map[0 := Caller(Acquiring(0), {}, false)]))
  {
    var s3 := Leading(1, map[0 := Caller(Lookup(Stage.Leading(0)), {}, false)]);
    var s4 := Leading(1, map[0 := Caller(Pruning(0), {}, false)]);
    var s5 := Leading(1, map[0 := Caller(Acquiring(0), {}, false)]);
    var none: map<string, Wrapper> := map[];
    assert none - Prunable(s4.pool, s4.tasks, {}) == none;
    NothingTaken({}, none, Prunable(s4.pool, s4.tasks, {}));
    Then(before, s3, Moves(0, Look), s4);
    Then(before + [Moves(0, Look)], s4, Moves(0, PruneIdle({})), s5);
  }

  lemma FirstCallAcquires(before: seq<Step>)
    requires Run(1, before, Leading(1, map[0 := Caller(Acquiring(0), {}, false)]))
    ensures Run(1, before + [Moves(0, Acquire)], Leading(0, map[0 := Caller(Dialing(0), {}, false)]))
  {
    var s5 := Leading(1, map[0 := Caller(Acquiring(0), {}, false)]);
    Then(before, s5, Moves(0, Acquire), Leading(0, map[0 := Caller(Dialing(0), {}, false)]));
  }

  /** The second call starts when the transport exists but is not bound yet. */
  function SecondStarts(): State {
    Made(map[], map["n" := 0], {}, map[0 := Caller(Inserting(0, 0), {0}, false), 1 := Caller(Lookup(Early), {}, false)])
  }

  lemma SecondCallStarts(before: seq<Step>)
    requires Run(1, before, Leading(0, map[0 := Caller(Dialing(0), {}, false)]))
    ensures Run(1, before + [Moves(0, DialOk)] + [Begin(1, SomeRequest())], SecondStarts())
  {
    var s6 := Leading(0, map[0 := Caller(Dialing(0), {}, false)]);
    var s7 := Made(map[], map["n" := 0], {}, map[0 := Caller(Inserting(0, 0), {0}, false)]);
    JustOne(0);
    Then(before, s6, Moves(0, DialOk), s7);
    Then(before + [Moves(0, DialOk)], s7, Begin(1, SomeRequest()), SecondStarts());
  }

  function SecondWaits(): State {
    Made(map[], map["n" := 0], {}, map[0 := Caller(Inserting(0, 0), {0}, false), 1 := Caller(Waiting(0), {}, false)])
  }

  lemma SecondCallWaits(before: seq<Step>)
    requires Run(1, before, SecondStarts())
    ensures Run(1, before + [Moves(1, Look)] + [Moves(1, ClaimConnect)], SecondWaits())
  {
    var s9 := Made(map[], map["n" := 0], {},
                   map[0 := Caller(Inserting(0, 0), {0}, false), 1 := Caller(Claiming, {}, false)]);
    Then(before, SecondStarts(), Moves(1, Look), s9);
    Then(before + [Moves(1, Look)], s9, Moves(1, ClaimConnect), SecondWaits());
  }

  function FirstReturns(): State {
    Made(map["n" := 0], map[], {0},
         map[0 := Caller(Returning(Got(0, Fresh)), {0}, false), 1 := Caller(Waiting(0), {}, false)])
  }

  function FirstLeaves(): State {
    Made(map["n" := 0], map["n" := 0], {},
         map[0 := Caller(Leaving(0, Got(0, Fresh)), {0}, false), 1 := Caller(Waiting(0), {}, false)])
  }

  lemma FirstCallInserts(before: seq<Step>)
    requires Run(1, before, SecondWaits())
    ensures Run(1, before + [Moves(0, Insert)], FirstLeaves())
  {
    NothingTaken({0}, map[], {"n"});
    Then(before, SecondWaits(), Moves(0, Insert), FirstLeaves());
  }

  lemma FirstCallReturns(before: seq<Step>)
    requires Run(1, before, FirstLeaves())
    ensures Run(1, before + [Moves(0, LeaderDrop)], FirstReturns())
  {
    Then(before, FirstLeaves(), Moves(0, LeaderDrop), FirstReturns());
  }

  function SecondReturns(): State {
    Made(map["n" := 0], map[], {0},
         map[0 := Caller(Returning(Got(0, Fresh)), {0}, false), 1 := Caller(Returning(Got(0, Followed)), {0}, true)])
  }

  lemma SecondCallReturns(before: seq<Step>)
    requires Run(1, before, FirstReturns())
    ensures Run(1, before + [Moves(1, Wake)] + [Moves(1, Look)], SecondReturns())
  {
    var s13 := Made(map["n" := 0], map[], {0},
                    map[0 := Caller(Returning(Got(0, Fresh)), {0}, false), 1 := Caller(Lookup(AfterWait), {}, true)]);
    JustOne(0);
    Then(before, FirstReturns(), Moves(1, Wake), s13);
    Then(before + [Moves(1, Wake)], s13, Moves(1, Look), SecondReturns());
  }

  function EarlySteps(): seq<Step> {
    [Begin(0, SomeRequest()), Moves(0, Look), Moves(0, ClaimConnect)]
    + [Moves(0, Look), Moves(0, PruneIdle({})), Moves(0, Acquire), Moves(0, DialOk), Begin(1, SomeRequest())]
  }

  function LateSteps(): seq<Step> {
    [Moves(1, Look), Moves(1, ClaimConnect), Moves(0, Insert), Moves(0, LeaderDrop), Moves(1, Wake), Moves(1, Look)]
  }

  lemma OneByOne(first: seq<Step>, a: Step, b: Step, c: Step, d: Step, e: Step)
    ensures first + [a] + [b] + [c] + [d] + [e] == first + [a, b, c, d, e]
  {
  }

  lemma DialRun(first: seq<Step>)
    requires Run(1, first, Leading(1, map[0 := Caller(Lookup(Stage.Leading(0)), {}, false)]))
    ensures Run(1, first + [Moves(0, Look), Moves(0, PruneIdle({})), Moves(0, Acquire), Moves(0, DialOk),
                            Begin(1, SomeRequest())], SecondStarts())
  {
    var a, b, c := Moves(0, Look), Moves(0, PruneIdle({})), Moves(0, Acquire);
    var d, e := Moves(0, DialOk), Begin(1, SomeRequest());
    FirstCallPrunes(first);
    FirstCallAcquires(first + [a] + [b]);
    SecondCallStarts(first + [a] + [b] + [c]);
    OneByOne(first, a, b, c, d, e);
  }

  lemma EarlyRun()
    ensures Run(1, EarlySteps(), SecondStarts())
  {
    var first := [Begin(0, SomeRequest()), Moves(0, Look), Moves(0, ClaimConnect)];
    FirstCallLeads(first);
    DialRun(first);
  }

  lemma BindRun(early: seq<Step>)
    requires Run(1, early, SecondStarts())
    ensures Run(1, early + [Moves(1, Look)] + [Moves(1, ClaimConnect)] + [Moves(0, Insert)] + [Moves(0, LeaderDrop)],
                FirstReturns())
  {
    SecondCallWaits(early);
    FirstCallInserts(early + [Moves(1, Look)] + [Moves(1, ClaimConnect)]);
    FirstCallReturns(early + [Moves(1, Look)] + [Moves(1, ClaimConnect)] + [Moves(0, Insert)]);
  }

  lemma LateRun(early: seq<Step>)
    requires Run(1, early, SecondStarts())
    ensures Run(1, early + LateSteps(), SecondReturns())
  {
    BindRun(early);
    SecondCallReturns(early + [Moves(1, Look)] + [Moves(1, ClaimConnect)] + [Moves(0, Insert)]
                      + [Moves(0, LeaderDrop)]);
    OneByOne(early + [Moves(1, Look)], Moves(1, ClaimConnect), Moves(0, Insert), Moves(0, LeaderDrop), Moves(1, Wake),
             Moves(1, Look));
    Regroup(early, LateSteps());
  }

  lemma Regroup(early: seq<Step>, late: seq<Step>)
    requires |late| == 6
    ensures early + [late[0]] + [late[1], late[2], late[3], late[4], late[5]] == early + late
  {
  }

  /**
   A transport that exists but is not bound yet when the caller looks may be the one it is given: the
   wrapper is there before call 1 first looks, and call 1 follows it in the end.
   */
  lemma FollowedMayBeOlder()
    ensures Run(1, EarlySteps(), SecondStarts()) && Run(1, EarlySteps() + LateSteps(), SecondReturns())
    ensures MissedIn(SecondStarts(), 1, "n") && LateSteps()[0] == Moves(1, Look) && 0 in SecondStarts().pool.managed
    ensures SecondReturns().tasks[1].pc == Returning(Got(0, Followed))
  {
    EarlyRun();
    LateRun(EarlySteps());
  }
}
