/** What has happened before a connection is used: the history behind the states of a conversation. */
module ConversationHistory {
  import opened Conversation

  // ---------- Every hop is authenticated ----------

  /** The hops that were accepted among the first `i` moves, in order. */
  function Passed(states: seq<State>, moves: seq<Move>, i: nat): seq<nat>
    requires i <= |moves| < |states|
    requires forall j :: 0 <= j < i && moves[j] == Verdict(true) ==> states[j].server.SChecking?
  {
    if i == 0 then []
    else
      Passed(states, moves, i - 1) + if moves[i - 1] == Verdict(true) then [states[i - 1].server.hop] else []
  }

  /** The numbers below `n`, in order. */
  ghost predicate FirstHops(passed: seq<nat>, n: nat) {
    |passed| == n && forall j :: 0 <= j < n ==> passed[j] == j
  }

  /** How far the server has come; `joined` says that it waited for another request to connect. */
  ghost predicate Progress(route: Route, server: Server, passed: seq<nat>, joined: bool) {
    match server
    case SStart => passed == []
    case SReply(_) => true
    case SResolve(_, _) => passed == []
    case STrying(_, hop, _) => FirstHops(passed, hop) && hop < |route|
    case SAsking(_, hop, _, _) => FirstHops(passed, hop) && hop < |route|
    case SChecking(_, hop, _) => FirstHops(passed, hop) && hop < |route|
    case SFinal(_) => joined || FirstHops(passed, |route|)
    case _ => true
  }

  lemma ProgressStep(route: Route, s: State, m: Move, passed: seq<nat>, joined: bool)
    requires Progress(route, s.server, passed, joined) && Enabled(route, s, m)
    ensures Progress(route, Apply(route, s, m).server,
                     if m == Verdict(true) then passed + [s.server.hop] else passed, joined || m == Join)
  {
  }

  lemma VerdictsAreChecks(route: Route, states: seq<State>, moves: seq<Move>)
    requires IsRun(route, states, moves)
    ensures forall j :: 0 <= j < |moves| && moves[j] == Verdict(true) ==> states[j].server.SChecking?
  {
  }

  lemma {:induction false} EveryRunProgresses(route: Route, states: seq<State>, moves: seq<Move>, i: nat)
    requires IsRun(route, states, moves) && i <= |moves|
    requires forall j :: 0 <= j < |moves| && moves[j] == Verdict(true) ==> states[j].server.SChecking?
    ensures Progress(route, states[i].server, Passed(states, moves, i), Join in moves[..i])
  {
    if i > 0 {
      EveryRunProgresses(route, states, moves, i - 1);
      ProgressStep(route, states[i - 1], moves[i - 1], Passed(states, moves, i - 1), Join in moves[..i - 1]);
      assert moves[..i] == moves[..i - 1] + [moves[i - 1]];
    }
  }

  /** A connection that the server made itself is used only after every hop has been accepted, in order. */
  lemma ConnectedAfterEveryHop(route: Route, states: seq<State>, moves: seq<Move>, i: nat)
    requires IsRun(route, states, moves) && i < |moves| && moves[i] == Connected && Join !in moves[..i]
    ensures forall j :: 0 <= j < |moves| && moves[j] == Verdict(true) ==> states[j].server.SChecking?
    ensures FirstHops(Passed(states, moves, i), |route|)
  {
    VerdictsAreChecks(route, states, moves);
    EveryRunProgresses(route, states, moves, i);
  }

  // ---------- What the client is told about reuse ----------

  predicate BeforeRun(server: Server) {
    || server.SStart? || server.SReply? || server.SResolve? || server.STrying? || server.SAsking?
    || server.SChecking? || server.SFinal?
  }

  /** `used`: the server took a cached connection; `made`: it made one. */
  ghost predicate Told(s: State, used: bool, made: bool) {
    && !(used && made)
    && (BeforeRun(s.server) ==> !used && !made)
    && (forall i :: 0 <= i < |s.toClient| && s.toClient[i].Cache? ==>
          (used || made) && s.toClient[i].reused == used)
    && (s.client.CStream? ==> (used || made) && s.client.reused == used)
    && (s.client.CLoop? || s.client.CAsked? ==> s.client.reused ==> used)
  }

  lemma ToldStep(route: Route, s: State, m: Move, used: bool, made: bool)
    requires Told(s, used, made) && Enabled(route, s, m)
    ensures Told(Apply(route, s, m), used || m == UseCache, made || m == Connected)
  {
  }

  lemma {:induction false} EveryRunTells(route: Route, states: seq<State>, moves: seq<Move>, i: nat)
    requires IsRun(route, states, moves) && i <= |moves|
    ensures Told(states[i], UseCache in moves[..i], Connected in moves[..i])
  {
    if i > 0 {
      EveryRunTells(route, states, moves, i - 1);
      ToldStep(route, states[i - 1], moves[i - 1], UseCache in moves[..i - 1], Connected in moves[..i - 1]);
      assert moves[..i] == moves[..i - 1] + [moves[i - 1]];
    }
  }

  /** A client believes in a reused connection only if the server took one from the cache; a shell knows exactly. */
  lemma ReuseIsReportedTruthfully(route: Route, states: seq<State>, moves: seq<Move>, i: nat)
    requires IsRun(route, states, moves) && i < |states|
    ensures states[i].client.CStream? ==>
              && (states[i].client.reused <==> UseCache in moves[..i])
              && (!states[i].client.reused <==> Connected in moves[..i])
    ensures states[i].client.CLoop? && states[i].client.reused ==> UseCache in moves[..i]
  {
    EveryRunTells(route, states, moves, i);
  }
}
