/** Connecting through a chain of jump hosts: `connect_via_jumps` in client.rs of the core. */
module JumpChain {
  import opened Wrappers

  const MAX_JUMP_AUTH_ATTEMPTS := 5

  /** What an observer sees, in order; `Requested` is a question to the credential provider. */
  datatype Event =
    | Connecting(hop: nat)
    | ConnectedTo(hop: nat)
    | Requested(hop: nat, attempt: nat, previousFailed: bool)
    | Authenticating(hop: nat, attempt: nat)
    | Rejected(hop: nat, attempt: nat)
    | Authenticated(hop: nat)
    | FinalConnecting

  /** How the network, the hosts and the provider behave; nothing is assumed of them. */
  datatype World = World(
    configured: nat -> bool,
    tunnel: nat -> bool,
    handshake: nat -> bool,
    credential: (nat, nat) -> Result<bool>,
    verdict: (nat, nat) -> Result<bool>)

  /** The first `n` attempts are made and rejected. */
  ghost predicate RejectedBefore(world: World, hop: nat, n: nat) {
    forall j :: 1 <= j <= n ==> world.credential(hop, j) == Ok(true) && world.verdict(hop, j) == Ok(false)
  }

  /** Attempt `k` is the first to be accepted, and there was a credential for each. */
  ghost predicate AcceptedAt(world: World, hop: nat, k: nat) {
    k > 0 && RejectedBefore(world, hop, k - 1) && world.credential(hop, k) == Ok(true)
    && world.verdict(hop, k) == Ok(true)
  }

  /** One of the first five attempts is accepted. */
  ghost predicate Accepts(world: World, hop: nat) {
    exists k :: 1 <= k <= 5 && AcceptedAt(world, hop, k)
  }

  ghost predicate Reachable(world: World, hop: nat, tunnelled: bool) {
    world.configured(hop) && (tunnelled ==> world.tunnel(hop)) && world.handshake(hop) && Accepts(world, hop)
  }

  ghost predicate HopWorks(world: World, hop: nat) {
    Reachable(world, hop, hop > 0)
  }

  // ---------- The grammar of traces ----------

  function Failures(hop: nat, n: nat): seq<Event> {
    if n == 0 then [] else Failures(hop, n - 1) + [Requested(hop, n, n > 1), Authenticating(hop, n), Rejected(hop, n)]
  }

  /** `k - 1` rejected attempts and one that is accepted. */
  function Attempts(hop: nat, k: nat): seq<Event>
    requires k > 0
  {
    Failures(hop, k - 1) + [Requested(hop, k, k > 1), Authenticating(hop, k), Authenticated(hop)]
  }

  function HopTrace(hop: nat, k: nat): seq<Event>
    requires k > 0
  {
    [Connecting(hop), ConnectedTo(hop)] + Attempts(hop, k)
  }

  predicate Counts(ks: seq<nat>) {
    forall i :: 0 <= i < |ks| ==> 1 <= ks[i] <= 5
  }

  function HopTraces(ks: seq<nat>): seq<Event>
    requires Counts(ks)
  {
    if ks == [] then [] else HopTraces(ks[..|ks| - 1]) + HopTrace(|ks| - 1, ks[|ks| - 1])
  }

  /** The trace of a connection in which hop `i` took `ks[i]` attempts. */
  function Full(ks: seq<nat>): seq<Event>
    requires Counts(ks)
  {
    HopTraces(ks) + [FinalConnecting]
  }

  /** All attempts at one hop were rejected. */
  function GivenUp(ks: seq<nat>): seq<Event>
    requires Counts(ks)
  {
    HopTraces(ks) + ([Connecting(|ks|), ConnectedTo(|ks|)] + Failures(|ks|, 5))
  }

  ghost predicate Begins(trace: seq<Event>, ks: seq<nat>, total: nat) {
    Counts(ks) && |ks| == total && trace <= Full(ks)
  }

  ghost predicate GivesUp(trace: seq<Event>, ks: seq<nat>, total: nat) {
    Counts(ks) && |ks| < total && trace == GivenUp(ks)
  }

  /** A beginning of a full trace for `total` hops, or the trace of giving up at one of them. */
  ghost predicate Conforms(trace: seq<Event>, total: nat) {
    (exists ks :: Begins(trace, ks, total)) || (exists ks :: GivesUp(trace, ks, total))
  }

  // ---------- Beginnings ----------

  lemma PrefixConcat<T>(a: seq<T>, b: seq<T>, c: seq<T>)
    requires b <= c
    ensures a + b <= a + c
  {
  }

  lemma {:induction false} LongerChain(ks: seq<nat>, total: nat) returns (more: seq<nat>)
    requires Counts(ks) && |ks| <= total
    ensures Counts(more) && |more| == total && HopTraces(ks) <= HopTraces(more)
    decreases total - |ks|
  {
    if |ks| == total {
      more := ks;
    } else {
      var next := ks + [1];
      assert next[..|ks|] == ks;
      more := LongerChain(next, total);
    }
  }

  lemma NextHop(ks: seq<nat>, k: nat)
    requires Counts(ks) && 1 <= k <= MAX_JUMP_AUTH_ATTEMPTS
    ensures Counts(ks + [k]) && HopTraces(ks + [k]) == HopTraces(ks) + HopTrace(|ks|, k)
  {
    assert (ks + [k])[..|ks|] == ks;
  }

  lemma PrefixTransitive<T>(a: seq<T>, b: seq<T>, c: seq<T>)
    requires a <= b && b <= c
    ensures a <= c
  {
  }

  /** Stopping within hop `|ks|`. */
  lemma StopsWithinHop(ks: seq<nat>, k: nat, part: seq<Event>, total: nat)
    requires Counts(ks) && |ks| < total && 1 <= k <= MAX_JUMP_AUTH_ATTEMPTS && part <= HopTrace(|ks|, k)
    ensures Conforms(HopTraces(ks) + part, total)
  {
    var trace := HopTraces(ks) + part;
    PrefixConcat(HopTraces(ks), part, HopTrace(|ks|, k));
    NextHop(ks, k);
    var more := LongerChain(ks + [k], total);
    PrefixTransitive(trace, HopTraces(ks + [k]), HopTraces(more));
    PrefixTransitive(trace, HopTraces(more), Full(more));
    assert Begins(trace, more, total);
  }

  /** A hop fails before its end, or all attempts at it are rejected. */
  lemma FailsWithinHop(ks: seq<nat>, k: nat, events: seq<Event>, total: nat)
    requires Counts(ks) && |ks| < total && 1 <= k <= MAX_JUMP_AUTH_ATTEMPTS
    requires || events <= HopTrace(|ks|, k)
             || events == [Connecting(|ks|), ConnectedTo(|ks|)] + Failures(|ks|, 5)
    ensures Conforms(HopTraces(ks) + events, total)
  {
    if events <= HopTrace(|ks|, k) {
      StopsWithinHop(ks, k, events, total);
    } else {
      assert GivesUp(HopTraces(ks) + events, ks, total);
    }
  }

  lemma EndsAfterHops(ks: seq<nat>)
    requires Counts(ks)
    ensures Conforms(HopTraces(ks), |ks|) && Conforms(Full(ks), |ks|)
  {
    assert Begins(HopTraces(ks), ks, |ks|) && Begins(Full(ks), ks, |ks|);
  }

  // ---------- The loops ----------

  /** The attempt loop for one hop. */
  method AuthenticateHop(hop: nat, world: World) returns (r: Result<()>, events: seq<Event>, ghost k: nat)
    ensures 1 <= k <= 5
    ensures r.Ok? ==> events == Attempts(hop, k) && AcceptedAt(world, hop, k)
    ensures r.Err? ==> events <= Attempts(hop, k) || (events == Failures(hop, 5) && RejectedBefore(world, hop, 5))
    ensures r.Ok? <==> Accepts(world, hop)
  {
    events := [];
    var previousFailed := false;
    var attempt := 1;
    while attempt <= MAX_JUMP_AUTH_ATTEMPTS
      invariant 1 <= attempt <= MAX_JUMP_AUTH_ATTEMPTS + 1
      invariant previousFailed == (attempt > 1)
      invariant events == Failures(hop, attempt - 1)
      invariant RejectedBefore(world, hop, attempt - 1)
    {
      k := attempt;
      events := events + [Requested(hop, attempt, previousFailed)];
      var given := world.credential(hop, attempt);
      if given.Err? || !given.value {
        return Err, events, k;
      }
      events := events + [Authenticating(hop, attempt)];
      var accepted := world.verdict(hop, attempt);
      if accepted.Err? {
        return Err, events, k;
      }
      if accepted.value {
        events := events + [Authenticated(hop)];
        assert AcceptedAt(world, hop, k);
        return Ok(()), events, k;
      }
      previousFailed := true;
      events := events + [Rejected(hop, attempt)];
      attempt := attempt + 1;
    }
    k := MAX_JUMP_AUTH_ATTEMPTS;
    r := Err;
  }

  /** The hops in order. */
  function UpTo(n: nat): seq<nat> {
    if n == 0 then [] else UpTo(n - 1) + [n - 1]
  }

  /** The body of the hop loop; `previous` is the session the next hop is reached through. */
  method ReachHop(hop: nat, previous: Option<nat>, keepalive: seq<nat>, world: World)
    returns (r: Result<seq<nat>>, events: seq<Event>, ghost k: nat)
    ensures 1 <= k <= MAX_JUMP_AUTH_ATTEMPTS
    ensures r.Ok? ==>
              events == HopTrace(hop, k) && r.value == keepalive + (if previous.Some? then [previous.value] else [])
    ensures r.Err? && !(events <= HopTrace(hop, k)) ==>
              events == [Connecting(hop), ConnectedTo(hop)] + Failures(hop, MAX_JUMP_AUTH_ATTEMPTS)
    ensures r.Ok? <==> Reachable(world, hop, previous.Some?)
  {
    k := 1;
    events := [Connecting(hop)];
    if !world.configured(hop) {
      return Err, events, k;
    }
    var kept := keepalive;
    if previous.Some? {
      if !world.tunnel(hop) {
        return Err, events, k;
      }
      kept := kept + [previous.value];
    }
    if !world.handshake(hop) {
      return Err, events, k;
    }
    events := events + [ConnectedTo(hop)];
    var accepted, more, n := AuthenticateHop(hop, world);
    k := n;
    if more <= Attempts(hop, k) {
      PrefixConcat([Connecting(hop), ConnectedTo(hop)], more, Attempts(hop, k));
    }
    events := events + more;
    r := if accepted.Ok? then Ok(kept) else Err;
  }

  method Connect(total: nat, world: World) returns (r: Result<seq<nat>>, trace: seq<Event>)
    ensures Conforms(trace, total)
    ensures r.Ok? ==> r.value == UpTo(total) && total > 0
    ensures r.Ok? ==> exists ks :: Counts(ks) && |ks| == total && trace == Full(ks)
    ensures r.Ok? <==> total > 0 && world.tunnel(total) && world.handshake(total)
                       && forall hop :: 0 <= hop < total ==> HopWorks(world, hop)
  {
    var keepalive: seq<nat> := [];
    var current: Option<nat> := None;
    ghost var ks: seq<nat> := [];
    trace := [];
    for hop := 0 to total
      invariant |ks| == hop && Counts(ks) && trace == HopTraces(ks)
      invariant hop == 0 ==> current == None && keepalive == []
      invariant hop > 0 ==> current == Some(hop - 1) && keepalive == UpTo(hop - 1)
      invariant forall h :: 0 <= h < hop ==> HopWorks(world, h)
    {
      var reached, events, k := ReachHop(hop, current, keepalive, world);
      trace := trace + events;
      assert reached.Ok? <==> HopWorks(world, hop);
      if reached.Err? {
        FailsWithinHop(ks, k, events, total);
        return Err, trace;
      }
      NextHop(ks, k);
      ks := ks + [k];
      keepalive := reached.value;
      current := Some(hop);
    }
    EndsAfterHops(ks);
    if current.None? {
      return Err, trace;
    }
    trace := trace + [FinalConnecting];
    assert trace == Full(ks);
    if !world.tunnel(total) {
      return Err, trace;
    }
    keepalive := keepalive + [current.value];
    if !world.handshake(total) {
      return Err, trace;
    }
    r := Ok(keepalive);
  }

  // ---------- What the grammar says ----------

  lemma {:induction false} FailuresStay(hop: nat, n: nat, e: Event)
    requires e in Failures(hop, n)
    ensures (e.Requested? || e.Authenticating? || e.Rejected?) && e.hop == hop && 1 <= e.attempt <= n
    ensures e.Requested? ==> e.previousFailed == (e.attempt > 1)
  {
    if n > 0 && e in Failures(hop, n - 1) {
      FailuresStay(hop, n - 1, e);
    }
  }

  lemma {:induction false} TraceStays(ks: seq<nat>, e: Event)
    requires Counts(ks) && e in HopTraces(ks)
    ensures !e.FinalConnecting? && e.hop < |ks|
    ensures e.Requested? ==> 1 <= e.attempt <= MAX_JUMP_AUTH_ATTEMPTS && e.previousFailed == (e.attempt > 1)
  {
    var n := |ks| - 1;
    if e in HopTraces(ks[..n]) {
      TraceStays(ks[..n], e);
    } else if e in Failures(n, ks[n] - 1) {
      FailuresStay(n, ks[n] - 1, e);
    }
  }

  lemma {:induction false} AuthenticatedAfter(ks: seq<nat>, p: nat, hop: nat)
    requires Counts(ks) && p < |HopTraces(ks)| && HopTraces(ks)[p] == Connecting(hop + 1)
    ensures Authenticated(hop) in HopTraces(ks)[..p]
  {
    var n := |ks| - 1;
    var before := HopTraces(ks[..n]);
    if p < |before| {
      assert HopTraces(ks)[..p] == before[..p];
      AuthenticatedAfter(ks[..n], p, hop);
    } else {
      var here := HopTrace(n, ks[n]);
      assert here[p - |before|] == Connecting(hop + 1);
      ConnectingIsFirst(n, ks[n], p - |before|, hop + 1);
      assert hop == n - 1;
      var last := HopTrace(hop, ks[hop]);
      assert ks[..n][|ks[..n]| - 1] == ks[hop];
      assert before == HopTraces(ks[..n][..hop]) + last;
      assert last[|last| - 1] == Authenticated(hop);
      assert before[|before| - 1] == Authenticated(hop);
      assert HopTraces(ks)[..p] == before;
    }
  }

  lemma ConnectingIsFirst(hop: nat, k: nat, p: nat, other: nat)
    requires k > 0 && p < |HopTrace(hop, k)| && HopTrace(hop, k)[p] == Connecting(other)
    ensures p == 0 && other == hop
  {
    if p >= 2 {
      var e := Attempts(hop, k)[p - 2];
      if p - 2 < |Failures(hop, k - 1)| {
        FailuresStay(hop, k - 1, e);
      }
    }
  }

  /** In every conforming trace a hop is only connected to once the hop before it is authenticated. */
  lemma HopsConnectInOrder(trace: seq<Event>, total: nat, p: nat, hop: nat)
    requires Conforms(trace, total) && p < |trace| && trace[p] == Connecting(hop + 1)
    ensures Authenticated(hop) in trace[..p]
  {
    if ks :| Begins(trace, ks, total) {
      assert trace[..p] == HopTraces(ks)[..p];
      AuthenticatedAfter(ks, p, hop);
    } else {
      var ks :| GivesUp(trace, ks, total);
      GivingUpConnectsInOrder(ks, p, hop);
    }
  }

  lemma GivingUpConnectsInOrder(ks: seq<nat>, p: nat, hop: nat)
    requires Counts(ks) && p < |GivenUp(ks)| && GivenUp(ks)[p] == Connecting(hop + 1)
    ensures Authenticated(hop) in GivenUp(ks)[..p]
  {
    var before := HopTraces(ks);
    if p < |before| {
      assert GivenUp(ks)[..p] == before[..p];
      AuthenticatedAfter(ks, p, hop);
    } else {
      var q := p - |before|;
      if q >= 2 {
        FailuresStay(|ks|, MAX_JUMP_AUTH_ATTEMPTS, Failures(|ks|, MAX_JUMP_AUTH_ATTEMPTS)[q - 2]);
      }
      assert q == 0 && hop + 1 == |ks|;
      assert before == HopTraces(ks[..hop]) + HopTrace(hop, ks[hop]);
      assert before[|before| - 1] == Authenticated(hop);
      assert GivenUp(ks)[..p] == before;
    }
  }

  /** Nothing is tried that was not asked for, and every verdict follows its own attempt at once. */
  ghost predicate Asked(trace: seq<Event>) {
    forall p :: 0 <= p < |trace| ==> Follows(trace, p)
  }

  ghost predicate Follows(trace: seq<Event>, p: nat)
    requires p < |trace|
  {
    match trace[p]
    case Authenticating(hop, attempt) => p > 0 && trace[p - 1] == Requested(hop, attempt, attempt > 1)
    case Rejected(hop, attempt) => p > 0 && trace[p - 1] == Authenticating(hop, attempt)
    case Authenticated(hop) => p > 0 && trace[p - 1].Authenticating? && trace[p - 1].hop == hop
    case ConnectedTo(hop) => p > 0 && trace[p - 1] == Connecting(hop)
    case _ => true
  }

  lemma AskedConcat(a: seq<Event>, b: seq<Event>)
    requires Asked(a) && Asked(b)
    ensures Asked(a + b)
  {
    forall p | 0 <= p < |a + b|
      ensures Follows(a + b, p)
    {
      if p < |a| {
        assert Follows(a, p);
      } else {
        assert Follows(b, p - |a|);
      }
    }
  }

  lemma AskedPrefix(a: seq<Event>, b: seq<Event>)
    requires Asked(b) && a <= b
    ensures Asked(a)
  {
    forall p | 0 <= p < |a|
      ensures Follows(a, p)
    {
      assert Follows(b, p);
    }
  }

  lemma {:induction false} FailuresAreAsked(hop: nat, n: nat)
    ensures Asked(Failures(hop, n))
  {
    if n > 0 {
      FailuresAreAsked(hop, n - 1);
      AskedConcat(Failures(hop, n - 1), [Requested(hop, n, n > 1), Authenticating(hop, n), Rejected(hop, n)]);
    }
  }

  lemma HopIsAsked(hop: nat, k: nat)
    requires k > 0
    ensures Asked(HopTrace(hop, k)) && Asked([Connecting(hop), ConnectedTo(hop)] + Failures(hop, k))
  {
    FailuresAreAsked(hop, k);
    FailuresAreAsked(hop, k - 1);
    AskedConcat(Failures(hop, k - 1), [Requested(hop, k, k > 1), Authenticating(hop, k), Authenticated(hop)]);
    AskedConcat([Connecting(hop), ConnectedTo(hop)], Attempts(hop, k));
    AskedConcat([Connecting(hop), ConnectedTo(hop)], Failures(hop, k));
  }

  lemma {:induction false} HopsAreAsked(ks: seq<nat>)
    requires Counts(ks)
    ensures Asked(HopTraces(ks))
  {
    if ks != [] {
      var n := |ks| - 1;
      HopsAreAsked(ks[..n]);
      HopIsAsked(n, ks[n]);
      AskedConcat(HopTraces(ks[..n]), HopTrace(n, ks[n]));
    }
  }

  lemma EveryTraceIsAsked(trace: seq<Event>, total: nat)
    requires Conforms(trace, total)
    ensures Asked(trace)
  {
    if ks :| Begins(trace, ks, total) {
      HopsAreAsked(ks);
      AskedConcat(HopTraces(ks), [FinalConnecting]);
      AskedPrefix(trace, Full(ks));
    } else {
      var ks :| GivesUp(trace, ks, total);
      HopsAreAsked(ks);
      HopIsAsked(|ks|, 5);
      AskedConcat(HopTraces(ks), [Connecting(|ks|), ConnectedTo(|ks|)] + Failures(|ks|, 5));
    }
  }

  /** Attempts are numbered from 1 to at most 5, and the provider hears of a failure exactly from the second on. */
  lemma RequestsAreNumbered(trace: seq<Event>, total: nat, e: Event)
    requires Conforms(trace, total) && e in trace && e.Requested?
    ensures e.hop < total && 1 <= e.attempt <= 5 && e.previousFailed == (e.attempt > 1)
  {
    if ks :| Begins(trace, ks, total) {
      assert e in HopTraces(ks);
      TraceStays(ks, e);
    } else {
      var ks :| GivesUp(trace, ks, total);
      if e in HopTraces(ks) {
        TraceStays(ks, e);
      } else {
        FailuresStay(|ks|, MAX_JUMP_AUTH_ATTEMPTS, e);
      }
    }
  }
}
