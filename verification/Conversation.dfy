/**
 * One connection between a daemon client and the daemon: client.rs and server.rs of the daemon,
 * as two automata that exchange whole frames over two queues. The credential provider, the
 * remote host and every failure of the connection are the choice of the environment.
 */
module Conversation {
  import opened Wrappers
  import opened WireBasics
  import opened Wire
  import JumpChain

  datatype Operation = ExecOp | ShellOp

  // ---------- The two automata ----------

  datatype Client =
    | CReady(request: ClientFrame)
    | CWaiting(request: ClientFrame)
    | CLoop(op: Operation, reused: bool)
    | CAsked(op: Operation, reused: bool, challenge: Challenge)
    | CStream(reused: bool, inputClosed: bool)
    | CDone
    | CFailed
    | CConfused

  /** What the client does with a frame, after its `match`. */
  function ClientRead(c: Client, f: ServerFrame): Client {
    match c
    case CWaiting(request) =>
      if f.Error? then CFailed
      else if (if request.Status? then f.StatusReport? else f.Done?) then CDone
      else CConfused
    case CLoop(op, reused) =>
      (match f
       case AuthRequired => CDone
       case Cache(value) => if op.ExecOp? then CLoop(op, value) else CStream(value, false)
       case JumpAuthChallenge(challenge) => CAsked(op, reused, challenge)
       case Error(_) => CFailed
       case Done => c
       case Stdout(_) => if op.ExecOp? then c else CConfused
       case Stderr(_) => if op.ExecOp? then c else CConfused
       case Exit(_) => if op.ExecOp? then CDone else CConfused
       case StatusReport(_) => CConfused)
    case CStream(reused, inputClosed) =>
      (match f
       case Stdout(_) => c
       case Stderr(_) => c
       case Exit(_) => CDone
       case Error(_) => CFailed
       case Cache(value) => CStream(value, inputClosed)
       case Done => c
       case AuthRequired => CConfused
       case JumpAuthChallenge(_) => CConfused
       case StatusReport(_) => CConfused)
    case _ => c
  }

  predicate ClientReads(c: Client) {
    c.CWaiting? || c.CLoop? || c.CStream?
  }

  predicate Gone(c: Client) {
    c.CDone? || c.CFailed?
  }

  datatype Server =
    | SStart
    | SReply(request: ClientFrame)
    | SResolve(op: Operation, hasAuth: bool)
    | STrying(op: Operation, hop: nat, attempt: nat)
    | SAsking(op: Operation, hop: nat, attempt: nat, challenge: Challenge)
    | SChecking(op: Operation, hop: nat, attempt: nat)
    | SFinal(op: Operation)
    | SRun(op: Operation)
    | SDrain
    | SClosed
    | SConfused

  predicate OneShot(f: ClientFrame) {
    f.Ping? || f.Status? || f.Disconnect? || f.Shutdown?
  }

  function ServerRead(s: Server, f: ClientFrame): Server {
    match s
    case SStart =>
      if OneShot(f) then SReply(f)
      else if f.Exec? then SResolve(ExecOp, f.auth.Some?)
      else if f.Shell? then SResolve(ShellOp, f.auth.Some?)
      else SConfused
    case SAsking(op, hop, attempt, _) =>
      if !f.JumpAuthResponse? then SConfused else if f.auth.None? then SClosed else SChecking(op, hop, attempt)
    case SRun(_) => if StreamFrame(f) then s else SConfused
    case _ => s
  }

  predicate StreamFrame(f: ClientFrame) {
    f.Input? || f.Resize? || f.Eof?
  }

  predicate ServerReads(s: Server) {
    s.SStart? || s.SAsking? || s == SRun(ShellOp)
  }

  // ---------- The product ----------

  /** `route[i]` is where hop `i` leads. */
  datatype Jump = Jump(alias: Str, host: Str, port: U16)

  type Route = r: seq<Jump> | |r| < 0x1_0000_0000

  /** `asked` and `answered` record the challenges sent and those the client's answers were meant for. */
  datatype State = State(
    client: Client, server: Server, toServer: seq<ClientFrame>, toClient: seq<ServerFrame>,
    asked: seq<Challenge>, answered: seq<Challenge>)

  function Begin(request: ClientFrame): State {
    State(CReady(request), SStart, [], [], [], [])
  }

  predicate IsRequest(f: ClientFrame) {
    OneShot(f) || f.Exec? || f.Shell?
  }

  datatype Move =
    | Send
    | Receive
    | Answer(auth: Option<AuthRequest>)
    | Type(frame: ClientFrame)
    | ClientEnds
    | ClientBreaks
    | Accept
    | Reply(reply: ServerFrame)
    | UseCache
    | NeedAuth
    | Dial
    | Join
    | Automatic
    | Ask
    | Verdict(accepted: bool)
    | Connected
    | Output(output: ServerFrame)
    | ShellEnds
    | Finish(last: ServerFrame)
    | ServerEnds
    | ServerBreaks

  predicate Answers(request: ClientFrame, f: ServerFrame) {
    match request
    case Status => f.StatusReport?
    case Disconnect(_) => f.Done? || f.Error?
    case _ => f.Done?
  }

  function ChallengeAt(route: Route, hop: nat, attempt: nat): Challenge
    requires hop < |route| && attempt < 0x1_0000_0000
  {
    Challenge(hop, |route|, attempt, route[hop].alias, route[hop].host, route[hop].port, attempt > 1)
  }

  predicate OnRoute(route: Route, s: Server) {
    s.STrying? || s.SAsking? || s.SChecking? ==> s.hop < |route| && 1 <= s.attempt <= JumpChain.MAX_JUMP_AUTH_ATTEMPTS
  }

  predicate Enabled(route: Route, s: State, m: Move) {
    match m
    case Send => s.client.CReady? && ClientFits(s.client.request)
    case Receive => ClientReads(s.client) && s.toClient != []
    case Answer(auth) => s.client.CAsked? && AuthFits(auth)
    case Type(f) => s.client.CStream? && StreamFrame(f) && ClientFits(f) && (!f.Resize? ==> !s.client.inputClosed)
    case ClientEnds => ClientReads(s.client) && s.toClient == [] && s.server.SClosed?
    case ClientBreaks => true
    case Accept => ServerReads(s.server) && s.toServer != []
    case Reply(f) => s.server.SReply? && Answers(s.server.request, f) && ServerFits(f)
    case UseCache => s.server.SResolve?
    case NeedAuth => s.server.SResolve? && !s.server.hasAuth
    case Dial => s.server.SResolve? && s.server.hasAuth
    case Join => s.server.SResolve? && s.server.hasAuth
    case Automatic => s.server.STrying? && s.server.attempt == 1
    case Ask => s.server.STrying? && s.server.attempt > 1 && OnRoute(route, s.server)
                && ServerFits(JumpAuthChallenge(ChallengeAt(route, s.server.hop, s.server.attempt)))
    case Verdict(_) => s.server.SChecking?
    case Connected => s.server.SFinal?
    case Output(f) => (s.server.SRun? || s.server.SDrain?) && (f.Stdout? || (f.Stderr? && s.server == SRun(ExecOp)))
        && ServerFits(f)
    case ShellEnds => s.server == SRun(ShellOp)
    case Finish(f) => (s.server == SRun(ExecOp) || s.server.SDrain?) && (f.Exit? || f.Error?) && ServerFits(f)
    case ServerEnds => ServerReads(s.server) && s.toServer == [] && Gone(s.client)
    case ServerBreaks => true
  }

  function AfterSend(request: ClientFrame): Client {
    if request.Exec? then CLoop(ExecOp, false) else if request.Shell? then CLoop(ShellOp, false) else CWaiting(request)
  }

  function AfterVerdict(route: Route, s: Server, accepted: bool): Server
    requires s.SChecking?
  {
    if accepted then (if s.hop + 1 < |route| then STrying(s.op, s.hop + 1, 1) else SFinal(s.op))
    else if s.attempt < JumpChain.MAX_JUMP_AUTH_ATTEMPTS then STrying(s.op, s.hop, s.attempt + 1)
    else SClosed
  }

  function Say(s: State, f: ServerFrame, next: Server): State {
    s.(toClient := s.toClient + [f], server := next)
  }

  function Apply(route: Route, s: State, m: Move): State
    requires Enabled(route, s, m)
  {
    match m
    case Send => s.(toServer := s.toServer + [s.client.request], client := AfterSend(s.client.request))
    case Receive => s.(toClient := s.toClient[1..], client := ClientRead(s.client, s.toClient[0]))
    case Answer(auth) =>
      s.(toServer := s.toServer + [JumpAuthResponse(auth)], client := CLoop(s.client.op, s.client.reused),
         answered := s.answered + [s.client.challenge])
    case Type(f) =>
      s.(toServer := s.toServer + [f], client := if f.Eof? then s.client.(inputClosed := true) else s.client)
    case ClientEnds => s.(client := CFailed)
    case ClientBreaks => s.(client := if s.client.CDone? || s.client.CConfused? then s.client else CFailed)
    case Accept => s.(toServer := s.toServer[1..], server := ServerRead(s.server, s.toServer[0]))
    case Reply(f) => Say(s, f, SClosed)
    case UseCache => Say(s, Cache(true), SRun(s.server.op))
    case NeedAuth => Say(s, AuthRequired, SClosed)
    case Dial => s.(server := if |route| > 0 then STrying(s.server.op, 0, 1) else SFinal(s.server.op))
    case Join => s.(server := SFinal(s.server.op))
    case Automatic => s.(server := SChecking(s.server.op, s.server.hop, s.server.attempt))
    case Ask =>
      var c := ChallengeAt(route, s.server.hop, s.server.attempt);
      Say(s, JumpAuthChallenge(c), SAsking(s.server.op, s.server.hop, s.server.attempt, c)).(asked := s.asked + [c])
    case Verdict(accepted) => s.(server := AfterVerdict(route, s.server, accepted))
    case Connected => Say(s, Cache(false), SRun(s.server.op))
    case Output(f) => Say(s, f, s.server)
    case ShellEnds => s.(server := SDrain)
    case Finish(f) => Say(s, f, SClosed)
    case ServerEnds => s.(server := SClosed)
    case ServerBreaks => s.(server := if s.server.SConfused? then s.server else SClosed)
  }

  /** A run from a fresh connection that makes one request. */
  ghost predicate IsRun(route: Route, states: seq<State>, moves: seq<Move>) {
    && |states| == |moves| + 1
    && (exists request :: IsRequest(request) && states[0] == Begin(request))
    && forall i :: 0 <= i < |moves| ==>
         Enabled(route, states[i], moves[i]) && states[i + 1] == Apply(route, states[i], moves[i])
  }

  // ---------- What the queues may hold ----------

  predicate Outputs(w: seq<ServerFrame>) {
    forall i :: 0 <= i < |w| ==> w[i].Stdout? || w[i].Stderr?
  }

  /** Output, perhaps closed by the final frame. */
  predicate StreamWord(w: seq<ServerFrame>) {
    forall i :: 0 <= i < |w| ==> w[i].Stdout? || w[i].Stderr? || (i == |w| - 1 && (w[i].Exit? || w[i].Error?))
  }

  predicate ExecWord(w: seq<ServerFrame>) {
    forall i :: 0 <= i < |w| ==> w[i].Cache? || w[i].Stdout? || w[i].Stderr?
  }

  predicate LastExecWord(w: seq<ServerFrame>) {
    forall i :: 0 <= i < |w| ==>
      w[i].Cache? || w[i].Stdout? || w[i].Stderr? || (i == |w| - 1 && (w[i].Exit? || w[i].Error? || w[i].AuthRequired?))
  }

  predicate OneChallenge(w: seq<ServerFrame>) {
    |w| == 1 && w[0].JumpAuthChallenge?
  }

  /** The client can read all of `w` and is never surprised. */
  predicate Fine(c: Client, w: seq<ServerFrame>) {
    match c
    case CReady(_) => w == []
    case CWaiting(request) => w == [] || (|w| == 1 && Answers(request, w[0]))
    case CLoop(op, _) =>
      || w == [] || OneChallenge(w)
      || (if op.ExecOp? then LastExecWord(w) else w == [AuthRequired] || (w[0].Cache? && StreamWord(w[1..])))
    case CAsked(_, _, _) => w == []
    case CStream(_, _) => StreamWord(w)
    case CDone => true
    case CFailed => true
    case CConfused => false
  }

  predicate InLoop(c: Client, op: Operation) {
    (c.CLoop? && c.op == op) || Gone(c)
  }

  predicate Typed(w: seq<ClientFrame>) {
    forall i :: 0 <= i < |w| ==> StreamFrame(w[i])
  }

  /** A shell client with the server's output on its way. */
  predicate ShellFed(c: Client, w: seq<ServerFrame>) {
    || Gone(c)
    || (c.CLoop? && c.op == ShellOp && w != [] && w[0].Cache? && Outputs(w[1..]))
    || (c.CStream? && Outputs(w))
  }

  predicate Asking(s: State) {
    && s.server.SAsking? && s.asked != [] && s.asked[|s.asked| - 1] == s.server.challenge
    && var before := s.asked[..|s.asked| - 1];
       || (s.toClient == [JumpAuthChallenge(s.server.challenge)] && s.toServer == [] && s.answered == before
           && InLoop(s.client, s.server.op))
       || (s.toClient == [] && s.toServer == [] && s.answered == before
           && (Gone(s.client)
               || (s.client.CAsked? && s.client.op == s.server.op && s.client.challenge == s.server.challenge)))
       || (s.toClient == [] && |s.toServer| == 1 && s.toServer[0].JumpAuthResponse? && s.answered == s.asked
           && InLoop(s.client, s.server.op))
  }

  predicate Starting(s: State) {
    && s.asked == [] && s.toClient == []
    && (|| (s.client.CReady? && IsRequest(s.client.request) && s.toServer == [])
        || (s.toServer == [] && Gone(s.client))
        || (|s.toServer| == 1 && IsRequest(s.toServer[0])
            && (Gone(s.client) || s.client == AfterSend(s.toServer[0]))))
  }

  /** How the two sides and the queues fit together. */
  predicate Linked(s: State) {
    match s.server
    case SStart => Starting(s)
    case SReply(request) => OneShot(request) && s.toServer == [] && s.toClient == []
        && (s.client == CWaiting(request) || Gone(s.client))
    case SResolve(op, _) => s.toServer == [] && s.toClient == [] && InLoop(s.client, op)
    case STrying(op, _, _) => s.toServer == [] && s.toClient == [] && InLoop(s.client, op)
    case SChecking(op, _, _) => s.toServer == [] && s.toClient == [] && InLoop(s.client, op)
    case SFinal(op) => s.toServer == [] && s.toClient == [] && InLoop(s.client, op)
    case SAsking(_, _, _, _) => Asking(s)
    case SRun(op) =>
      if op.ExecOp? then s.toServer == [] && InLoop(s.client, op) && ExecWord(s.toClient)
      else Typed(s.toServer) && ShellFed(s.client, s.toClient)
    case SDrain => ShellFed(s.client, s.toClient)
    case SClosed => Fine(s.client, s.toClient)
    case SConfused => false
  }

  // ---------- What is outstanding ----------

  function Pending(c: Client, w: seq<ServerFrame>): seq<Challenge> {
    if c.CAsked? then [c.challenge] else if OneChallenge(w) then [w[0].challenge] else []
  }

  /** Every challenge is answered, in order, but for the one under way. */
  predicate Balanced(s: State) {
    && s.answered <= s.asked && |s.asked| <= |s.answered| + 1
    && (!Gone(s.client) ==> s.asked == s.answered + Pending(s.client, s.toClient))
    && (!s.server.SAsking? && !s.server.SClosed? ==> s.asked == s.answered)
  }

  // ---------- The challenges so far ----------

  predicate Earlier(c: Challenge, hop: nat, attempt: nat) {
    c.index < hop || (c.index == hop && c.attempt < attempt)
  }

  predicate InOrder(asked: seq<Challenge>) {
    forall i, j :: 0 <= i < j < |asked| ==> Earlier(asked[i], asked[j].index, asked[j].attempt)
  }

  /** All challenges lie before the given attempt. */
  predicate Before(asked: seq<Challenge>, hop: nat, attempt: nat) {
    forall i :: 0 <= i < |asked| ==> Earlier(asked[i], hop, attempt)
  }

  predicate GoodChallenge(route: Route, c: Challenge) {
    && c.index < |route| && c.total == |route| && 2 <= c.attempt <= 5 && c.previousFailed
    && c.alias == route[c.index].alias && c.host == route[c.index].host && c.port == route[c.index].port
  }

  predicate Numbered(route: Route, s: State) {
    && OnRoute(route, s.server) && InOrder(s.asked)
    && (forall i :: 0 <= i < |s.asked| ==> GoodChallenge(route, s.asked[i]))
    && (match s.server
        case SStart => s.asked == []
        case SReply(_) => s.asked == []
        case SResolve(_, _) => s.asked == []
        case STrying(_, hop, attempt) => Before(s.asked, hop, attempt)
        case SAsking(_, hop, attempt, _) => Before(s.asked, hop, attempt + 1)
        case SChecking(_, hop, attempt) => Before(s.asked, hop, attempt + 1)
        case _ => true)
  }

  predicate Inv(route: Route, s: State) {
    Linked(s) && Balanced(s) && Numbered(route, s)
  }

  // ---------- Every move keeps it ----------

  lemma ReceiveWord(c: Client, w: seq<ServerFrame>)
    requires ClientReads(c) && w != [] && Fine(c, w)
    ensures Fine(ClientRead(c, w[0]), w[1..])
    ensures OneChallenge(w) && c.CLoop? ==> ClientRead(c, w[0]) == CAsked(c.op, c.reused, w[0].challenge)
  {
  }

  lemma ReceiveKeepsLinked(route: Route, s: State)
    requires Inv(route, s) && Enabled(route, s, Receive)
    ensures Linked(Apply(route, s, Receive))
  {
    if s.server.SClosed? {
      ReceiveWord(s.client, s.toClient);
    }
  }

  lemma SendKeepsLinked(route: Route, s: State, m: Move)
    requires Inv(route, s) && Enabled(route, s, m) && (m.Send? || m.Answer?)
    ensures Linked(Apply(route, s, m))
  {
  }

  lemma TypeKeepsLinked(route: Route, s: State, m: Move)
    requires Inv(route, s) && Enabled(route, s, m) && m.Type?
    ensures Linked(Apply(route, s, m))
  {
  }

  lemma EndKeepsLinked(route: Route, s: State, m: Move)
    requires Inv(route, s) && Enabled(route, s, m) && (m.ClientEnds? || m.ClientBreaks?)
    ensures Linked(Apply(route, s, m))
  {
  }

  lemma AcceptKeepsLinked(route: Route, s: State)
    requires Inv(route, s) && Enabled(route, s, Accept)
    ensures Linked(Apply(route, s, Accept))
  {
  }

  lemma DialKeepsLinked(route: Route, s: State, m: Move)
    requires Inv(route, s) && Enabled(route, s, m)
    requires || m.Reply? || m.UseCache? || m.NeedAuth? || m.Dial? || m.Join? || m.Automatic? || m.Ask?
             || m.Verdict? || m.Connected?
    ensures Linked(Apply(route, s, m))
  {
  }

  lemma OutputKeepsLinked(route: Route, s: State, m: Move)
    requires Inv(route, s) && Enabled(route, s, m) && m.Output?
    ensures Linked(Apply(route, s, m))
  {
  }

  lemma FinishKeepsLinked(route: Route, s: State, m: Move)
    requires Inv(route, s) && Enabled(route, s, m) && m.Finish?
    ensures Linked(Apply(route, s, m))
  {
  }

  lemma CloseKeepsLinked(route: Route, s: State, m: Move)
    requires Inv(route, s) && Enabled(route, s, m) && (m.ShellEnds? || m.ServerEnds? || m.ServerBreaks?)
    ensures Linked(Apply(route, s, m))
  {
  }

  lemma StepKeepsLinked(route: Route, s: State, m: Move)
    requires Inv(route, s) && Enabled(route, s, m)
    ensures Linked(Apply(route, s, m))
  {
    if m.Receive? {
      ReceiveKeepsLinked(route, s);
    } else if m.Send? || m.Answer? {
      SendKeepsLinked(route, s, m);
    } else if m.Type? {
      TypeKeepsLinked(route, s, m);
    } else if m.ClientEnds? || m.ClientBreaks? {
      EndKeepsLinked(route, s, m);
    } else if m.Accept? {
      AcceptKeepsLinked(route, s);
    } else if m.Output? {
      OutputKeepsLinked(route, s, m);
    } else if m.Finish? {
      FinishKeepsLinked(route, s, m);
    } else if m.ShellEnds? || m.ServerEnds? || m.ServerBreaks? {
      CloseKeepsLinked(route, s, m);
    } else {
      DialKeepsLinked(route, s, m);
    }
  }

  lemma ReceiveKeepsBalance(route: Route, s: State)
    requires Inv(route, s) && Enabled(route, s, Receive)
    ensures Balanced(Apply(route, s, Receive))
  {
  }

  lemma ClientKeepsBalance(route: Route, s: State, m: Move)
    requires Inv(route, s) && Enabled(route, s, m)
    requires m.Send? || m.Answer? || m.Type? || m.ClientEnds? || m.ClientBreaks?
    ensures Balanced(Apply(route, s, m))
  {
  }

  lemma AskKeepsBalance(route: Route, s: State, m: Move)
    requires Inv(route, s) && Enabled(route, s, m) && (m.Accept? || m.Ask?)
    ensures Balanced(Apply(route, s, m))
  {
  }

  lemma ServerKeepsBalance(route: Route, s: State, m: Move)
    requires Inv(route, s) && Enabled(route, s, m)
    requires !(m.Receive? || m.Send? || m.Answer? || m.Type? || m.ClientEnds? || m.ClientBreaks? || m.Accept? || m.Ask?)
    ensures Balanced(Apply(route, s, m))
  {
  }

  lemma StepKeepsBalance(route: Route, s: State, m: Move)
    requires Inv(route, s) && Enabled(route, s, m)
    ensures Balanced(Apply(route, s, m))
  {
    if m.Receive? {
      ReceiveKeepsBalance(route, s);
    } else if m.Send? || m.Answer? || m.Type? || m.ClientEnds? || m.ClientBreaks? {
      ClientKeepsBalance(route, s, m);
    } else if m.Accept? || m.Ask? {
      AskKeepsBalance(route, s, m);
    } else {
      ServerKeepsBalance(route, s, m);
    }
  }

  lemma AskKeepsNumbers(route: Route, s: State)
    requires Numbered(route, s) && Enabled(route, s, Ask)
    ensures Numbered(route, Apply(route, s, Ask))
  {
    var c := ChallengeAt(route, s.server.hop, s.server.attempt);
    var asked := s.asked + [c];
    forall i, j | 0 <= i < j < |asked| ensures Earlier(asked[i], asked[j].index, asked[j].attempt) {
      if j == |s.asked| {
        assert Earlier(s.asked[i], s.server.hop, s.server.attempt);
      }
    }
    forall i | 0 <= i < |asked|
      ensures Earlier(asked[i], s.server.hop, s.server.attempt + 1) && GoodChallenge(route, asked[i])
    {
      if i < |s.asked| {
        assert Earlier(s.asked[i], s.server.hop, s.server.attempt);
      }
    }
  }

  lemma MovingOn(asked: seq<Challenge>, hop: nat, attempt: nat, laterHop: nat, later: nat)
    requires Before(asked, hop, attempt) && (hop < laterHop || (hop == laterHop && attempt <= later))
    ensures Before(asked, laterHop, later)
  {
    forall i | 0 <= i < |asked| ensures Earlier(asked[i], laterHop, later) {
      assert Earlier(asked[i], hop, attempt);
    }
  }

  lemma ServerKeepsNumbers(route: Route, s: State, m: Move)
    requires Numbered(route, s) && Enabled(route, s, m) && (m.Accept? || m.Automatic? || m.Verdict? || m.Dial?)
    ensures Numbered(route, Apply(route, s, m))
  {
    if m.Automatic? {
      MovingOn(s.asked, s.server.hop, s.server.attempt, s.server.hop, s.server.attempt + 1);
    } else if m.Verdict? {
      MovingOn(s.asked, s.server.hop, s.server.attempt + 1, s.server.hop + 1, 1);
    }
  }

  lemma OthersKeepNumbers(route: Route, s: State, m: Move)
    requires Numbered(route, s) && Enabled(route, s, m)
    requires !(m.Ask? || m.Accept? || m.Automatic? || m.Verdict? || m.Dial?)
    ensures Numbered(route, Apply(route, s, m))
  {
  }

  lemma StepKeepsNumbers(route: Route, s: State, m: Move)
    requires Numbered(route, s) && Enabled(route, s, m)
    ensures Numbered(route, Apply(route, s, m))
  {
    if m.Ask? {
      AskKeepsNumbers(route, s);
    } else if m.Accept? || m.Automatic? || m.Verdict? || m.Dial? {
      ServerKeepsNumbers(route, s, m);
    } else {
      OthersKeepNumbers(route, s, m);
    }
  }

  lemma StepKeepsInv(route: Route, s: State, m: Move)
    requires Inv(route, s) && Enabled(route, s, m)
    ensures Inv(route, Apply(route, s, m))
  {
    StepKeepsLinked(route, s, m);
    StepKeepsBalance(route, s, m);
    StepKeepsNumbers(route, s, m);
  }

  lemma {:induction false} EveryRunKeepsInv(route: Route, states: seq<State>, moves: seq<Move>, i: nat)
    requires IsRun(route, states, moves) && i < |states|
    ensures Inv(route, states[i])
  {
    if i > 0 {
      EveryRunKeepsInv(route, states, moves, i - 1);
      StepKeepsInv(route, states[i - 1], moves[i - 1]);
    }
  }

  // ---------- Main results ----------

  /** Neither side ever takes its branch for an unexpected frame. */
  lemma NobodyIsConfused(route: Route, states: seq<State>, moves: seq<Move>, i: nat)
    requires IsRun(route, states, moves) && i < |states|
    ensures !states[i].client.CConfused? && !states[i].server.SConfused?
  {
    EveryRunKeepsInv(route, states, moves, i);
  }

  /** At most one challenge is unanswered, and answers come in the order of the challenges. */
  lemma OneChallengeAtATime(route: Route, states: seq<State>, moves: seq<Move>, i: nat)
    requires IsRun(route, states, moves) && i < |states|
    ensures states[i].answered <= states[i].asked && |states[i].asked| <= |states[i].answered| + 1
  {
    EveryRunKeepsInv(route, states, moves, i);
  }

  /** Any frame the server reads while it asks is the client's answer to the challenge it asked last. */
  lemma AnswersMatchTheLastChallenge(route: Route, states: seq<State>, moves: seq<Move>, i: nat)
    requires IsRun(route, states, moves) && i < |moves| && moves[i] == Accept && states[i].server.SAsking?
    ensures states[i].toServer[0].JumpAuthResponse?
    ensures states[i].answered == states[i].asked != []
    ensures states[i].answered[|states[i].answered| - 1] == states[i].server.challenge
  {
    EveryRunKeepsInv(route, states, moves, i);
  }

  /** The challenges for one hop. */
  function ForHop(asked: seq<Challenge>, hop: nat): seq<Challenge> {
    if asked == [] then []
    else
      var rest := ForHop(asked[..|asked| - 1], hop);
      if asked[|asked| - 1].index == hop then rest + [asked[|asked| - 1]] else rest
  }

  lemma {:induction false} ForHopIsOrdered(asked: seq<Challenge>, hop: nat)
    requires InOrder(asked) && forall i :: 0 <= i < |asked| ==> 2 <= asked[i].attempt
    ensures var f := ForHop(asked, hop);
            && (forall c <- f :: c in asked && c.index == hop)
            && (f != [] ==> |f| + 1 <= f[|f| - 1].attempt)
  {
    if asked != [] {
      var n := |asked| - 1;
      ForHopIsOrdered(asked[..n], hop);
      var before := ForHop(asked[..n], hop);
      if asked[n].index == hop && before != [] {
        var c := before[|before| - 1];
        assert c in before;
        var i :| 0 <= i < n && asked[..n][i] == c;
        assert Earlier(asked[i], asked[n].index, asked[n].attempt);
      }
    }
  }

  /** No hop is challenged more than four times, and never for its first attempt. */
  lemma AtMostFourChallengesPerHop(route: Route, states: seq<State>, moves: seq<Move>, i: nat, hop: nat)
    requires IsRun(route, states, moves) && i < |states|
    ensures |ForHop(states[i].asked, hop)| <= 4
    ensures forall c <- states[i].asked :: GoodChallenge(route, c)
  {
    EveryRunKeepsInv(route, states, moves, i);
    var asked := states[i].asked;
    ForHopIsOrdered(asked, hop);
    var f := ForHop(asked, hop);
    if f != [] {
      var c := f[|f| - 1];
      assert c in f;
      assert c in asked;
      assert GoodChallenge(route, c);
    }
  }

  /** Both sides wait for a frame and none is under way. */
  predicate Stuck(s: State) {
    ClientReads(s.client) && ServerReads(s.server) && s.toServer == [] && s.toClient == []
  }

  /** Only a shell that has started, where the remote shell may still end, can have both sides waiting. */
  lemma NeverStuckBeforeStreaming(route: Route, states: seq<State>, moves: seq<Move>, i: nat)
    requires IsRun(route, states, moves) && i < |states| && Stuck(states[i])
    ensures states[i].client.CStream? && states[i].server == SRun(ShellOp) && Enabled(route, states[i], ShellEnds)
  {
    EveryRunKeepsInv(route, states, moves, i);
  }

  /** A streaming client has only output ahead of it, and the final frame comes last. */
  lemma FinalFrameComesLast(route: Route, states: seq<State>, moves: seq<Move>, i: nat)
    requires IsRun(route, states, moves) && i < |states| && states[i].client.CStream?
    ensures StreamWord(states[i].toClient)
    ensures !states[i].server.SClosed? ==> Outputs(states[i].toClient)
  {
    EveryRunKeepsInv(route, states, moves, i);
  }
}
