/** Running one command on many hosts: fleet_main.rs. */
module Fleet {
  import opened Wrappers
  import opened Text

  const MAX_JOBS := 64
  const MAX_OUTPUT_LIMIT := 16 * 1024 * 1024
  const MAX_OUTPUT_WINDOW := 512 * 1024 * 1024
  const MAX_TARGETS := 1024

  type Bytes = seq<byte>

  /** `validate_limits` succeeds. */
  predicate ValidLimits(targets: nat, jobs: nat, limit: nat) {
    && 1 <= targets <= MAX_TARGETS && 1 <= jobs <= MAX_JOBS && 1 <= limit <= MAX_OUTPUT_LIMIT
    && jobs * limit * 2 <= MAX_OUTPUT_WINDOW
  }

  // ---------- Capped buffers ----------

  function Min(a: nat, b: nat): nat {
    if a < b then a else b
  }

  datatype Buffer = Buffer(bytes: Bytes, truncated: bool)

  const FRESH := Buffer([], false)

  /** The first `limit` bytes of all that was written. */
  function Capped(written: Bytes, limit: nat): Buffer {
    Buffer(written[..Min(limit, |written|)], |written| > limit)
  }

  /** `poll_write`. */
  function Put(b: Buffer, buf: Bytes, limit: nat): Buffer {
    var remaining := if |b.bytes| <= limit then limit - |b.bytes| else 0;
    var retain := Min(remaining, |buf|);
    Buffer(b.bytes + buf[..retain], b.truncated || retain < |buf|)
  }

  lemma PutIsCapped(written: Bytes, buf: Bytes, limit: nat)
    ensures Put(Capped(written, limit), buf, limit) == Capped(written + buf, limit)
  {
    var b := Capped(written, limit);
    if |written| <= limit {
      assert b.bytes == written;
      assert (written + buf)[..Min(limit, |written + buf|)] == written + buf[..Min(limit - |written|, |buf|)];
    } else {
      assert (written + buf)[..limit] == written[..limit];
    }
  }

  function PutAll(b: Buffer, chunks: seq<Bytes>, limit: nat): Buffer
    decreases |chunks|
  {
    if chunks == [] then b else PutAll(Put(b, chunks[0], limit), chunks[1..], limit)
  }

  lemma {:induction false} PutAllFrom(written: Bytes, chunks: seq<Bytes>, limit: nat)
    ensures PutAll(Capped(written, limit), chunks, limit) == Capped(written + Joined(chunks), limit)
    decreases |chunks|
  {
    if chunks == [] {
      assert written + [] == written;
    } else {
      PutIsCapped(written, chunks[0], limit);
      PutAllFrom(written + chunks[0], chunks[1..], limit);
      assert (written + chunks[0]) + Joined(chunks[1..]) == written + Joined(chunks);
    }
  }

  /** However the output is cut into writes, the first `limit` bytes are kept and a cut is marked. */
  lemma CappedWhateverTheChunks(chunks: seq<Bytes>, limit: nat)
    ensures PutAll(FRESH, chunks, limit) == Capped(Joined(chunks), limit)
  {
    assert FRESH == Capped([], limit);
    PutAllFrom([], chunks, limit);
    assert [] + Joined(chunks) == Joined(chunks);
  }

  class CappedBuffer {
    var bytes: Bytes
    const limit: nat
    var truncated: bool
    ghost var written: Bytes

    ghost predicate Valid()
      reads this
    {
      Buffer(bytes, truncated) == Capped(written, limit)
    }

    constructor (limit: nat)
      ensures Valid() && this.limit == limit && written == []
    {
      bytes := [];
      this.limit := limit;
      truncated := false;
      written := [];
    }

    method Write(buf: Bytes) returns (n: nat)
      requires Valid()
      modifies this
      ensures Valid() && written == old(written) + buf && n == |buf|
    {
      PutIsCapped(written, buf, limit);
      var remaining := if |bytes| <= limit then limit - |bytes| else 0;
      var retain := Min(remaining, |buf|);
      if retain != 0 {
        bytes := bytes + buf[..retain];
      }
      if retain < |buf| {
        truncated := true;
      }
      written := written + buf;
      n := |buf|;
    }
  }

  // ---------- The scheduler as a step system ----------

  datatype Output = Output(out: Buffer, err: Buffer)

  /** `printing` is the joined result that is still in hand; `finished` lists the joined targets. */
  datatype State = State(pending: seq<nat>, running: map<nat, Output>, printing: Option<Output>, finished: seq<nat>)

  datatype Move =
    | Spawn
    | Write(target: nat, toErr: bool, buf: Bytes)
    | Join(target: nat)
    | Printed

  function Range(from: nat, to: nat): (r: seq<nat>)
    requires from <= to
    ensures |r| == to - from && forall i :: 0 <= i < |r| ==> r[i] == from + i
  {
    seq(to - from, i requires 0 <= i < to - from => from + i)
  }

  function Begin(total: nat): State {
    State(Range(0, total), map[], None, [])
  }

  function Started(s: State): State
    requires s.pending != []
  {
    s.(pending := s.pending[1..], running := s.running[s.pending[0] := Output(FRESH, FRESH)])
  }

  function Written(o: Output, toErr: bool, buf: Bytes, limit: nat): Output {
    if toErr then o.(err := Put(o.err, buf, limit)) else o.(out := Put(o.out, buf, limit))
  }

  /** The first targets are spawned before any result is joined. */
  predicate Filling(s: State, total: nat, jobs: nat) {
    total - |s.pending| < Min(jobs, total)
  }

  predicate Enabled(s: State, m: Move, total: nat, jobs: nat) {
    match m
    case Spawn => Filling(s, total, jobs) && s.pending != []
    case Write(t, _, _) => t in s.running
    case Join(t) => t in s.running && s.printing.None? && !Filling(s, total, jobs)
    case Printed => s.printing.Some?
  }

  function Apply(s: State, m: Move, total: nat, jobs: nat, limit: nat): State
    requires Enabled(s, m, total, jobs)
  {
    match m
    case Spawn => Started(s)
    case Write(t, toErr, buf) => s.(running := s.running[t := Written(s.running[t], toErr, buf, limit)])
    case Join(t) => s.(running := s.running - {t}, printing := Some(s.running[t]), finished := s.finished + [t])
    case Printed =>
      var free := s.(printing := None);
      if free.pending == [] then free else Started(free)
  }

  ghost predicate IsRun(states: seq<State>, moves: seq<Move>, total: nat, jobs: nat, limit: nat) {
    && |states| == |moves| + 1 && states[0] == Begin(total)
    && forall i :: 0 <= i < |moves| ==>
         Enabled(states[i], moves[i], total, jobs) && states[i + 1] == Apply(states[i], moves[i], total, jobs, limit)
  }

  predicate Within(o: Output, limit: nat) {
    |o.out.bytes| <= limit && |o.err.bytes| <= limit
  }

  function Held(s: State): nat {
    |s.running| + if s.printing.Some? then 1 else 0
  }

  /** The next target to start. */
  function Next(s: State, total: nat): int {
    total - |s.pending|
  }

  /** The targets started so far are running or finished, never both and never twice. */
  ghost predicate EachOnce(s: State, total: nat) {
    && |s.pending| <= total && s.pending == Range(total - |s.pending|, total)
    && Distinct(s.finished)
    && (forall t :: 0 <= t < Next(s, total) <==> t in s.running || t in s.finished)
    && (forall t <- s.finished :: t !in s.running)
  }

  ghost predicate Bounded(s: State, total: nat, jobs: nat, limit: nat) {
    && |s.pending| + |s.running| + |s.finished| == total
    && Held(s) <= Min(jobs, total)
    && (Filling(s, total, jobs) ==> s.finished == [] && s.printing.None?)
    && (s.pending != [] && !Filling(s, total, jobs) ==> Held(s) == Min(jobs, total))
    && (forall t <- s.running :: Within(s.running[t], limit))
    && (s.printing.Some? ==> Within(s.printing.value, limit))
  }

  ghost predicate Inv(s: State, total: nat, jobs: nat, limit: nat) {
    EachOnce(s, total) && Bounded(s, total, jobs, limit)
  }

  lemma StartKeepsInv(s: State, total: nat, jobs: nat, limit: nat)
    requires EachOnce(s, total) && s.pending != []
    requires forall t <- s.running :: Within(s.running[t], limit)
    ensures EachOnce(Started(s), total) && |Started(s).running| == |s.running| + 1
    ensures forall t <- Started(s).running :: Within(Started(s).running[t], limit)
  {
    var k := s.pending[0];
    assert k == Next(s, total);
    assert k !in s.running && k !in s.finished;
    assert Started(s).running.Keys == s.running.Keys + {k};
    assert |Started(s).running| == |Started(s).running.Keys| && |s.running| == |s.running.Keys|;
  }

  lemma WriteKeepsInv(s: State, m: Move, total: nat, jobs: nat, limit: nat)
    requires Inv(s, total, jobs, limit) && Enabled(s, m, total, jobs) && m.Write?
    ensures Inv(Apply(s, m, total, jobs, limit), total, jobs, limit)
  {
    var after := Apply(s, m, total, jobs, limit);
    assert after.running.Keys == s.running.Keys;
    assert |after.running| == |after.running.Keys| == |s.running|;
    assert Within(after.running[m.target], limit);
  }

  lemma JoinKeepsInv(s: State, m: Move, total: nat, jobs: nat, limit: nat)
    requires Inv(s, total, jobs, limit) && Enabled(s, m, total, jobs) && m.Join?
    ensures Inv(Apply(s, m, total, jobs, limit), total, jobs, limit)
  {
    var after := Apply(s, m, total, jobs, limit);
    assert after.running.Keys == s.running.Keys - {m.target};
    assert |after.running| == |after.running.Keys| && |s.running| == |s.running.Keys|;
  }

  lemma StepKeepsInv(s: State, m: Move, total: nat, jobs: nat, limit: nat)
    requires Inv(s, total, jobs, limit) && Enabled(s, m, total, jobs)
    ensures Inv(Apply(s, m, total, jobs, limit), total, jobs, limit)
  {
    match m
    case Write(_, _, _) => WriteKeepsInv(s, m, total, jobs, limit);
    case Join(_) => JoinKeepsInv(s, m, total, jobs, limit);
    case Spawn => StartKeepsInv(s, total, jobs, limit);
    case Printed =>
      var free := s.(printing := None);
      if free.pending != [] {
        StartKeepsInv(free, total, jobs, limit);
      }
  }

  lemma {:induction false} EveryRunKeepsInv(states: seq<State>, moves: seq<Move>, total: nat, jobs: nat, limit: nat,
      i: nat)
    requires IsRun(states, moves, total, jobs, limit) && i < |states| && jobs > 0
    ensures Inv(states[i], total, jobs, limit)
  {
    if i > 0 {
      EveryRunKeepsInv(states, moves, total, jobs, limit, i - 1);
      StepKeepsInv(states[i - 1], moves[i - 1], total, jobs, limit);
    }
  }

  // ---------- Main results ----------

  ghost function Retained(running: map<nat, Output>): nat
    decreases |running|
  {
    if running == map[] then 0
    else
      var t :| t in running;
      |running[t].out.bytes| + |running[t].err.bytes| + Retained(running - {t})
  }

  lemma {:induction false} RetainedIsBounded(running: map<nat, Output>, limit: nat)
    requires forall t <- running :: Within(running[t], limit)
    ensures Retained(running) <= |running| * (2 * limit)
    decreases |running|
  {
    if running != map[] {
      var t :| t in running
          && Retained(running) == |running[t].out.bytes| + |running[t].err.bytes| + Retained(running - {t});
      RetainedIsBounded(running - {t}, limit);
      assert (running - {t}).Keys == running.Keys - {t};
      assert |running - {t}| == |running| - 1;
      assert |running| * (2 * limit) == (|running| - 1) * (2 * limit) + 2 * limit;
    }
  }

  ghost function RetainedBytes(s: State): nat {
    Retained(s.running) + if s.printing.Some? then |s.printing.value.out.bytes| + |s.printing.value.err.bytes| else 0
  }

  /** No target is lost or run twice, and at most `jobs` are in flight. */
  lemma NothingIsLost(states: seq<State>, moves: seq<Move>, total: nat, jobs: nat, limit: nat, i: nat)
    requires IsRun(states, moves, total, jobs, limit) && i < |states| && jobs > 0
    ensures |states[i].pending| + |states[i].running| + |states[i].finished| == total
    ensures |states[i].running| <= jobs
    ensures Distinct(states[i].finished)
  {
    EveryRunKeepsInv(states, moves, total, jobs, limit, i);
  }

  /** The output kept in memory never exceeds the window. */
  lemma MemoryIsBounded(states: seq<State>, moves: seq<Move>, total: nat, jobs: nat, limit: nat, i: nat)
    requires IsRun(states, moves, total, jobs, limit) && i < |states| && ValidLimits(total, jobs, limit)
    ensures RetainedBytes(states[i]) <= 536870912
  {
    EveryRunKeepsInv(states, moves, total, jobs, limit, i);
    HeldIsBounded(states[i], limit);
    WindowHolds(RetainedBytes(states[i]), Held(states[i]), total, jobs, limit);
  }

  lemma WindowHolds(retained: nat, held: nat, total: nat, jobs: nat, limit: nat)
    requires ValidLimits(total, jobs, limit) && held <= jobs && retained <= held * (2 * limit)
    ensures retained <= MAX_OUTPUT_WINDOW
  {
    Scale(held, jobs, 2 * limit);
    assert jobs * (2 * limit) == jobs * limit * 2;
  }

  lemma Scale(a: nat, b: nat, c: nat)
    requires a <= b
    ensures a * c <= b * c
  {
  }

  lemma HeldIsBounded(s: State, limit: nat)
    requires forall t <- s.running :: Within(s.running[t], limit)
    requires s.printing.Some? ==> Within(s.printing.value, limit)
    ensures RetainedBytes(s) <= Held(s) * (2 * limit)
  {
    RetainedIsBounded(s.running, limit);
    assert (|s.running| + 1) * (2 * limit) == |s.running| * (2 * limit) + 2 * limit;
  }

  /** When `join_next` finds no task, every target has run exactly once. */
  lemma EveryTargetRuns(states: seq<State>, moves: seq<Move>, total: nat, jobs: nat, limit: nat, i: nat)
    requires IsRun(states, moves, total, jobs, limit) && i < |states| && jobs > 0
    requires states[i].running == map[] && states[i].printing.None? && !Filling(states[i], total, jobs)
    ensures states[i].pending == [] && Distinct(states[i].finished) && |states[i].finished| == total
    ensures forall t :: 0 <= t < total <==> t in states[i].finished
  {
    EveryRunKeepsInv(states, moves, total, jobs, limit, i);
  }

  // ---------- Whose output it is ----------

  /** All that the target wrote to the stream, in order. */
  function WrittenBy(moves: seq<Move>, t: nat, toErr: bool): Bytes {
    if moves == [] then []
    else
      var m := moves[|moves| - 1];
      WrittenBy(moves[..|moves| - 1], t, toErr) + if m.Write? && m.target == t && m.toErr == toErr then m.buf else []
  }

  /** The output is the target's own, each stream by itself, cut at the limit. */
  ghost predicate OutputOf(o: Output, moves: seq<Move>, t: nat, limit: nat) {
    o.out == Capped(WrittenBy(moves, t, false), limit) && o.err == Capped(WrittenBy(moves, t, true), limit)
  }

  ghost predicate Silent(moves: seq<Move>, t: nat) {
    WrittenBy(moves, t, false) == [] && WrittenBy(moves, t, true) == []
  }

  /** `printing` is the output of the target that was joined last. */
  ghost predicate OwnOutput(s: State, moves: seq<Move>, total: nat, limit: nat) {
    && (forall t <- s.running :: OutputOf(s.running[t], moves, t, limit))
    && (forall t: nat :: t >= Next(s, total) ==> Silent(moves, t))
    && (s.printing.Some? ==>
          s.finished != [] && OutputOf(s.printing.value, moves, s.finished[|s.finished| - 1], limit))
  }

  lemma OneMoreMove(moves: seq<Move>, m: Move, t: nat, o: Output, limit: nat)
    requires OutputOf(o, moves, t, limit)
    ensures m.Write? && m.target == t ==> OutputOf(Written(o, m.toErr, m.buf, limit), moves + [m], t, limit)
    ensures !(m.Write? && m.target == t) ==> OutputOf(o, moves + [m], t, limit)
  {
    assert (moves + [m])[..|moves|] == moves;
    if m.Write? && m.target == t {
      PutIsCapped(WrittenBy(moves, t, m.toErr), m.buf, limit);
      assert WrittenBy(moves, t, !m.toErr) + [] == WrittenBy(moves, t, !m.toErr);
    }
  }

  lemma StillSilent(moves: seq<Move>, m: Move, t: nat)
    requires Silent(moves, t) && !(m.Write? && m.target == t)
    ensures Silent(moves + [m], t)
  {
    assert (moves + [m])[..|moves|] == moves;
  }

  lemma SilentIsFresh(moves: seq<Move>, t: nat, limit: nat)
    requires Silent(moves, t)
    ensures OutputOf(Output(FRESH, FRESH), moves, t, limit)
  {
  }

  lemma StepKeepsRunning(s: State, moves: seq<Move>, m: Move, total: nat, jobs: nat, limit: nat, t: nat)
    requires EachOnce(s, total) && OwnOutput(s, moves, total, limit) && Enabled(s, m, total, jobs)
    requires t in Apply(s, m, total, jobs, limit).running
    ensures OutputOf(Apply(s, m, total, jobs, limit).running[t], moves + [m], t, limit)
  {
    if t in s.running {
      OneMoreMove(moves, m, t, s.running[t], limit);
    } else {
      assert t == Next(s, total);
      StillSilent(moves, m, t);
      SilentIsFresh(moves + [m], t, limit);
    }
  }

  lemma StepKeepsSilent(s: State, moves: seq<Move>, m: Move, total: nat, jobs: nat, limit: nat, t: nat)
    requires EachOnce(s, total) && OwnOutput(s, moves, total, limit) && Enabled(s, m, total, jobs)
    requires t >= Next(Apply(s, m, total, jobs, limit), total)
    ensures Silent(moves + [m], t)
  {
    StillSilent(moves, m, t);
  }

  lemma StepKeepsPrinting(s: State, moves: seq<Move>, m: Move, total: nat, jobs: nat, limit: nat)
    requires EachOnce(s, total) && OwnOutput(s, moves, total, limit) && Enabled(s, m, total, jobs)
    requires Apply(s, m, total, jobs, limit).printing.Some?
    ensures var after := Apply(s, m, total, jobs, limit);
            && after.finished != []
            && OutputOf(after.printing.value, moves + [m], after.finished[|after.finished| - 1], limit)
  {
    var after := Apply(s, m, total, jobs, limit);
    var t := after.finished[|after.finished| - 1];
    OneMoreMove(moves, m, t, if m.Join? then s.running[t] else s.printing.value, limit);
  }

  lemma StepKeepsOutput(s: State, moves: seq<Move>, m: Move, total: nat, jobs: nat, limit: nat)
    requires EachOnce(s, total) && OwnOutput(s, moves, total, limit) && Enabled(s, m, total, jobs)
    ensures OwnOutput(Apply(s, m, total, jobs, limit), moves + [m], total, limit)
  {
    var after := Apply(s, m, total, jobs, limit);
    forall t | t in after.running
      ensures OutputOf(after.running[t], moves + [m], t, limit)
    {
      StepKeepsRunning(s, moves, m, total, jobs, limit, t);
    }
    forall t: nat | t >= Next(after, total)
      ensures Silent(moves + [m], t)
    {
      StepKeepsSilent(s, moves, m, total, jobs, limit, t);
    }
    if after.printing.Some? {
      StepKeepsPrinting(s, moves, m, total, jobs, limit);
    }
  }

  lemma BeginOwnsNothing(total: nat, limit: nat)
    ensures OwnOutput(Begin(total), [], total, limit)
  {
  }

  /** In every run, what is kept and printed for a target is what that target wrote, stream by stream. */
  lemma {:induction false} OutputIsItsOwn(states: seq<State>, moves: seq<Move>, total: nat, jobs: nat, limit: nat,
      i: nat)
    requires IsRun(states, moves, total, jobs, limit) && i < |states| && jobs > 0
    ensures OwnOutput(states[i], moves[..i], total, limit)
  {
    if i == 0 {
      BeginOwnsNothing(total, limit);
      assert moves[..0] == [];
    } else {
      OutputIsItsOwn(states, moves, total, jobs, limit, i - 1);
      EveryRunKeepsInv(states, moves, total, jobs, limit, i - 1);
      StepKeepsOutput(states[i - 1], moves[..i - 1], moves[i - 1], total, jobs, limit);
      assert moves[..i] == moves[..i - 1] + [moves[i - 1]];
    }
  }

  // ---------- The scheduling loop ----------

  /** Every target below `next` is in flight or in `order`, and none twice. */
  ghost predicate Scheduled(next: nat, tasks: set<nat>, order: seq<nat>) {
    && Distinct(order) && |tasks| + |order| == next
    && (forall t :: 0 <= t < next <==> t in tasks || t in order)
    && (forall t <- order :: t !in tasks)
  }

  lemma JoinOne(next: nat, tasks: set<nat>, order: seq<nat>, t: nat)
    requires Scheduled(next, tasks, order) && t in tasks
    ensures Scheduled(next, tasks - {t}, order + [t]) && |tasks - {t}| == |tasks| - 1
  {
  }

  lemma SpawnOne(next: nat, tasks: set<nat>, order: seq<nat>)
    requires Scheduled(next, tasks, order)
    ensures Scheduled(next + 1, tasks + {next}, order) && next !in tasks && |tasks + {next}| == |tasks| + 1
  {
    assert next !in tasks && next !in order;
  }

  lemma NoneInFlight(next: nat, order: seq<nat>)
    requires Scheduled(next, {}, order)
    ensures Distinct(order) && |order| == next && forall t :: 0 <= t < next <==> t in order
  {
  }

  lemma FailuresGrow(order: seq<nat>, t: nat, succeeded: nat -> bool)
    ensures FailuresIn(order + [t], succeeded) == FailuresIn(order, succeeded) + if succeeded(t) then 0 else 1
  {
    assert (order + [t])[..|order|] == order;
  }

  lemma {:induction false} FailuresAreCounted(order: seq<nat>, succeeded: nat -> bool)
    requires Distinct(order)
    ensures FailuresIn(order, succeeded) == |Failed(order, succeeded)|
  {
    if order != [] {
      var n := |order| - 1;
      FailuresAreCounted(order[..n], succeeded);
      assert order == order[..n] + [order[n]];
      assert order[n] !in order[..n];
      OneMoreFailure(order[..n], order[n], succeeded);
    }
  }

  ghost function Failed(order: seq<nat>, succeeded: nat -> bool): set<nat> {
    set t | t in order && !succeeded(t)
  }

  lemma OneMoreFailure(order: seq<nat>, t: nat, succeeded: nat -> bool)
    requires t !in order
    ensures |Failed(order + [t], succeeded)| == |Failed(order, succeeded)| + if succeeded(t) then 0 else 1
  {
    if succeeded(t) {
      assert Failed(order + [t], succeeded) == Failed(order, succeeded);
    } else {
      assert Failed(order + [t], succeeded) == Failed(order, succeeded) + {t};
    }
  }

  /** One turn of the join loop: the next target takes the place of the one that ended. */
  method JoinNext(total: nat, start: nat, running: set<nat>, done: seq<nat>)
    returns (next: nat, tasks: set<nat>, order: seq<nat>, t: nat)
    requires running != {} && start <= total && Scheduled(start, running, done)
    ensures order == done + [t] && Scheduled(next, tasks, order)
    ensures next == (if start < total then start + 1 else start) && (next < total ==> tasks != {})
    ensures |tasks| == if start < total then |running| else |running| - 1
  {
    t :| t in running;
    JoinOne(start, running, done, t);
    next, tasks, order := start, running - {t}, done + [t];
    if next < total {
      SpawnOne(next, tasks, order);
      tasks := tasks + {next};
      next := next + 1;
    }
  }

  /** The two loops of the main function; which task is joined next is left open. */
  method Schedule(total: nat, jobs: nat, succeeded: nat -> bool) returns (order: seq<nat>, failed: nat)
    requires jobs > 0
    ensures Distinct(order) && |order| == total && forall t :: 0 <= t < total <==> t in order
    ensures failed == |set t | 0 <= t < total && !succeeded(t)|
  {
    var next, tasks: set<nat> := 0, {};
    order, failed := [], 0;
    while next < Min(jobs, total)
      invariant next <= Min(jobs, total) && Scheduled(next, tasks, order) && order == []
    {
      SpawnOne(next, tasks, order);
      tasks := tasks + {next};
      next := next + 1;
    }
    while tasks != {}
      invariant next <= total && Scheduled(next, tasks, order) && failed == FailuresIn(order, succeeded)
      invariant next < total ==> tasks != {}
      decreases 2 * (total - next) + |tasks|
    {
      ghost var before := order;
      var t: nat;
      next, tasks, order, t := JoinNext(total, next, tasks, order);
      FailuresGrow(before, t, succeeded);
      if !succeeded(t) {
        failed := failed + 1;
      }
    }
    NoneInFlight(next, order);
    FailuresAreCounted(order, succeeded);
    assert Failed(order, succeeded) == set t | 0 <= t < total && !succeeded(t);
  }

  function FailuresIn(order: seq<nat>, succeeded: nat -> bool): nat {
    if order == [] then 0
    else FailuresIn(order[..|order| - 1], succeeded) + if succeeded(order[|order| - 1]) then 0 else 1
  }
}
