/** Frames of the daemon protocol and their payloads: protocol.rs. */
module Wire {
  import opened Wrappers
  import opened Text
  import opened WireBasics

  const MAX_FRAME_BYTES := 1024 * 1024
  const MAX_ALIAS_BYTES := 128
  const MAX_COMMAND_BYTES := 256 * 1024
  const MAX_SECRET_BYTES := 64 * 1024
  const MAX_PATH_BYTES := 4096
  const MAX_TERM_BYTES := 256
  const OUTPUT_CHUNK_BYTES := 16 * 1024

  /** A private-key path is an operating-system string and need not be UTF-8. */
  datatype AuthRequest =
    | Auto
    | Agent
    | Password(secret: Str)
    | KeyboardInteractive(secret: Str)
    | PrivateKey(path: Bytes, passphrase: Option<Str>)

  datatype ClientFrame =
    | Ping
    | Status
    | Disconnect(alias: Str)
    | Exec(alias: Str, auth: Option<AuthRequest>, command: Str, asUser: Option<Str>)
    | Shell(alias: Str, auth: Option<AuthRequest>, term: Str, columns: U32, rows: U32, asUser: Option<Str>)
    | Input(bytes: Bytes)
    | Resize(columns: U32, rows: U32)
    | Eof
    | Shutdown
    | JumpAuthResponse(auth: Option<AuthRequest>)

  datatype Counters = Counters(total: U64, inUse: U64, leases: U64, max: U64, available: U64)

  datatype Challenge = Challenge(index: U64, total: U64, attempt: U64, alias: Str, host: Str, port: U16,
      previousFailed: bool)

  datatype ServerFrame =
    | Done
    | Error(message: Str)
    | AuthRequired
    | Stdout(bytes: Bytes)
    | Stderr(bytes: Bytes)
    | Exit(status: Option<U32>)
    | StatusReport(counters: Counters)
    | Cache(reused: bool)
    | JumpAuthChallenge(challenge: Challenge)

  // ---------- Authentication ----------

  /** `put_auth` succeeds. */
  predicate AuthFits(auth: Option<AuthRequest>) {
    match auth
    case None => true
    case Some(request) =>
      match request
      case Auto => true
      case Agent => true
      case Password(secret) => Fits(secret, MAX_SECRET_BYTES)
      case KeyboardInteractive(secret) => Fits(secret, MAX_SECRET_BYTES)
      case PrivateKey(path, passphrase) =>
        IsUtf8(path) && Fits(path, MAX_PATH_BYTES) && FitsOptional(passphrase, MAX_SECRET_BYTES)
  }

  function AuthTo(auth: Option<AuthRequest>, tail: Bytes): Bytes {
    match auth
    case None => ByteTo(0, tail)
    case Some(request) =>
      match request
      case Auto => ByteTo(1, tail)
      case Agent => ByteTo(2, tail)
      case Password(secret) => ByteTo(3, BytesTo(secret, tail))
      case KeyboardInteractive(secret) => ByteTo(4, BytesTo(secret, tail))
      case PrivateKey(path, passphrase) => ByteTo(5, BytesTo(path, OptionalTo(passphrase, tail)))
  }

  function GetAuth(b: Bytes): Parsed<Option<AuthRequest>> {
    var (kind, r) :- GetByte(b);
    if kind == 0 then Got(None, r)
    else if kind == 1 then Got(Some(Auto), r)
    else if kind == 2 then Got(Some(Agent), r)
    else if kind == 3 then
      var (s, r2) :- GetString(r, MAX_SECRET_BYTES);
      Got(Some(Password(s)), r2)
    else if kind == 4 then
      var (s, r2) :- GetString(r, MAX_SECRET_BYTES);
      Got(Some(KeyboardInteractive(s)), r2)
    else if kind == 5 then
      var (p, r2) :- GetString(r, MAX_PATH_BYTES);
      var (q, r3) :- GetOptional(r2, MAX_SECRET_BYTES);
      Got(Some(PrivateKey(p, q)), r3)
    else Bad
  }

  lemma AuthForward(auth: Option<AuthRequest>, tail: Bytes)
    requires AuthFits(auth)
    ensures GetAuth(AuthTo(auth, tail)) == Got(auth, tail)
  {
    if auth.None? {
      ByteForward(0, tail);
    } else {
      match auth.value
      case Auto => ByteForward(1, tail);
      case Agent => ByteForward(2, tail);
      case Password(secret) =>
        ByteForward(3, BytesTo(secret, tail));
        StringForward(secret, MAX_SECRET_BYTES, tail);
      case KeyboardInteractive(secret) =>
        ByteForward(4, BytesTo(secret, tail));
        StringForward(secret, MAX_SECRET_BYTES, tail);
      case PrivateKey(path, passphrase) =>
        ByteForward(5, BytesTo(path, OptionalTo(passphrase, tail)));
        StringForward(path, MAX_PATH_BYTES, OptionalTo(passphrase, tail));
        OptionalForward(passphrase, MAX_SECRET_BYTES, tail);
    }
  }

  lemma AuthBackward(b: Bytes)
    requires GetAuth(b).Got?
    ensures var g := GetAuth(b); AuthFits(g.value) && b == AuthTo(g.value, g.rest)
  {
    ByteBackward(b);
    var r := b[1..];
    if 3 <= b[0] <= 4 {
      StringBackward(r, MAX_SECRET_BYTES);
    } else if b[0] == 5 {
      StringBackward(r, MAX_PATH_BYTES);
      OptionalBackward(GetString(r, MAX_PATH_BYTES).rest, MAX_SECRET_BYTES);
    }
  }

  // ---------- Client frames ----------

  /** `encode_client` succeeds. */
  predicate ClientFits(frame: ClientFrame) {
    match frame
    case Disconnect(alias) => Fits(alias, MAX_ALIAS_BYTES)
    case Exec(alias, auth, command, asUser) =>
      Fits(alias, MAX_ALIAS_BYTES) && AuthFits(auth) && Fits(command, MAX_COMMAND_BYTES)
          && FitsOptional(asUser, MAX_ALIAS_BYTES)
    case Shell(alias, auth, term, _, _, asUser) =>
      Fits(alias, MAX_ALIAS_BYTES) && AuthFits(auth) && Fits(term, MAX_TERM_BYTES)
          && FitsOptional(asUser, MAX_ALIAS_BYTES)
    case Input(bytes) => Fits(bytes, OUTPUT_CHUNK_BYTES)
    case JumpAuthResponse(auth) => AuthFits(auth)
    case _ => true
  }

  function ClientTag(frame: ClientFrame): byte {
    match frame
    case Ping => 1
    case Status => 2
    case Disconnect(_) => 3
    case Exec(_, _, _, _) => 4
    case Shell(_, _, _, _, _, _) => 5
    case Input(_) => 6
    case Resize(_, _) => 7
    case Eof => 8
    case Shutdown => 9
    case JumpAuthResponse(_) => 10
  }

  function ClientBodyTo(frame: ClientFrame, tail: Bytes): Bytes {
    match frame
    case Disconnect(alias) => BytesTo(alias, tail)
    case Exec(alias, auth, command, asUser) => BytesTo(alias, AuthTo(auth, BytesTo(command, OptionalTo(asUser, tail))))
    case Shell(alias, auth, term, columns, rows, asUser) =>
      BytesTo(alias, AuthTo(auth, BytesTo(term, IntTo(columns, 4, IntTo(rows, 4, OptionalTo(asUser, tail))))))
    case Input(bytes) => BytesTo(bytes, tail)
    case Resize(columns, rows) => IntTo(columns, 4, IntTo(rows, 4, tail))
    case JumpAuthResponse(auth) => AuthTo(auth, tail)
    case _ => tail
  }

  function ClientTo(frame: ClientFrame, tail: Bytes): Bytes {
    ByteTo(ClientTag(frame), ClientBodyTo(frame, tail))
  }

  function EncodeClient(frame: ClientFrame): Result<Bytes> {
    if ClientFits(frame) then Ok(ClientTo(frame, [])) else Err
  }

  function GetExec(b: Bytes): Parsed<ClientFrame> {
    var (alias, r1) :- GetString(b, MAX_ALIAS_BYTES);
    var (auth, r2) :- GetAuth(r1);
    var (command, r3) :- GetString(r2, MAX_COMMAND_BYTES);
    var (asUser, r4) :- GetOptional(r3, MAX_ALIAS_BYTES);
    Got(Exec(alias, auth, command, asUser), r4)
  }

  function GetShell(b: Bytes): Parsed<ClientFrame> {
    var (alias, r1) :- GetString(b, MAX_ALIAS_BYTES);
    var (auth, r2) :- GetAuth(r1);
    var (term, r3) :- GetString(r2, MAX_TERM_BYTES);
    var (columns, r4) :- GetU32(r3);
    var (rows, r5) :- GetU32(r4);
    var (asUser, r6) :- GetOptional(r5, MAX_ALIAS_BYTES);
    Got(Shell(alias, auth, term, columns, rows, asUser), r6)
  }

  function GetResize(b: Bytes): Parsed<ClientFrame> {
    var (columns, r1) :- GetU32(b);
    var (rows, r2) :- GetU32(r1);
    Got(Resize(columns, rows), r2)
  }

  /** A client frame at the front of the bytes. */
  function ParseClient(b: Bytes): Parsed<ClientFrame> {
    var (tag, r) :- GetByte(b);
    ParseClientBody(tag, r)
  }

  function ParseClientBody(tag: byte, r: Bytes): Parsed<ClientFrame> {
    if tag == 1 then Got(Ping, r)
    else if tag == 2 then Got(Status, r)
    else if tag == 3 then
      var (alias, r2) :- GetString(r, MAX_ALIAS_BYTES);
      Got(Disconnect(alias), r2)
    else if tag == 4 then GetExec(r)
    else if tag == 5 then GetShell(r)
    else if tag == 6 then
      var (bytes, r2) :- GetBytes(r, OUTPUT_CHUNK_BYTES);
      Got(Input(bytes), r2)
    else if tag == 7 then GetResize(r)
    else if tag == 8 then Got(Eof, r)
    else if tag == 9 then Got(Shutdown, r)
    else if tag == 10 then
      var (auth, r2) :- GetAuth(r);
      Got(JumpAuthResponse(auth), r2)
    else Bad
  }

  function Finish<T>(p: Parsed<T>): Result<T> {
    if p.Got? && p.rest == [] then Ok(p.value) else Err
  }

  function DecodeClient(payload: Bytes): Result<ClientFrame> {
    Finish(ParseClient(payload))
  }

  lemma ExecForward(f: ClientFrame, tail: Bytes)
    requires f.Exec? && ClientFits(f)
    ensures GetExec(BytesTo(f.alias, AuthTo(f.auth, BytesTo(f.command, OptionalTo(f.asUser, tail))))) == Got(f, tail)
  {
    var s := OptionalTo(f.asUser, tail);
    var c := BytesTo(f.command, s);
    StringForward(f.alias, MAX_ALIAS_BYTES, AuthTo(f.auth, c));
    AuthForward(f.auth, c);
    StringForward(f.command, MAX_COMMAND_BYTES, s);
    OptionalForward(f.asUser, MAX_ALIAS_BYTES, tail);
  }

  lemma ExecBackward(b: Bytes)
    requires GetExec(b).Got?
    ensures var g := GetExec(b);
            && g.value.Exec? && ClientFits(g.value)
            && b == BytesTo(g.value.alias,
                AuthTo(g.value.auth, BytesTo(g.value.command, OptionalTo(g.value.asUser, g.rest))))
  {
    StringBackward(b, MAX_ALIAS_BYTES);
    var alias := GetString(b, MAX_ALIAS_BYTES);
    AuthBackward(alias.rest);
    var auth := GetAuth(alias.rest);
    StringBackward(auth.rest, MAX_COMMAND_BYTES);
    OptionalBackward(GetString(auth.rest, MAX_COMMAND_BYTES).rest, MAX_ALIAS_BYTES);
  }

  lemma ShellForward(f: ClientFrame, tail: Bytes)
    requires f.Shell? && ClientFits(f)
    ensures GetShell(BytesTo(f.alias,
        AuthTo(f.auth, BytesTo(f.term, IntTo(f.columns, 4, IntTo(f.rows, 4, OptionalTo(f.asUser, tail)))))))
         == Got(f, tail)
  {
    var s := OptionalTo(f.asUser, tail);
    var y := IntTo(f.rows, 4, s);
    var x := IntTo(f.columns, 4, y);
    var t := BytesTo(f.term, x);
    StringForward(f.alias, MAX_ALIAS_BYTES, AuthTo(f.auth, t));
    AuthForward(f.auth, t);
    StringForward(f.term, MAX_TERM_BYTES, x);
    U32Forward(f.columns, y);
    U32Forward(f.rows, s);
    OptionalForward(f.asUser, MAX_ALIAS_BYTES, tail);
  }

  lemma ShellBackward(b: Bytes)
    requires GetShell(b).Got?
    ensures var g := GetShell(b);
            && g.value.Shell? && ClientFits(g.value)
            && b == BytesTo(g.value.alias, AuthTo(g.value.auth, BytesTo(g.value.term,
                      IntTo(g.value.columns, 4, IntTo(g.value.rows, 4, OptionalTo(g.value.asUser, g.rest))))))
  {
    StringBackward(b, MAX_ALIAS_BYTES);
    var alias := GetString(b, MAX_ALIAS_BYTES);
    AuthBackward(alias.rest);
    var auth := GetAuth(alias.rest);
    StringBackward(auth.rest, MAX_TERM_BYTES);
    var term := GetString(auth.rest, MAX_TERM_BYTES);
    U32Backward(term.rest);
    var columns := GetU32(term.rest);
    U32Backward(columns.rest);
    OptionalBackward(GetU32(columns.rest).rest, MAX_ALIAS_BYTES);
  }

  lemma ResizeForward(f: ClientFrame, tail: Bytes)
    requires f.Resize?
    ensures GetResize(IntTo(f.columns, 4, IntTo(f.rows, 4, tail))) == Got(f, tail)
  {
    U32Forward(f.columns, IntTo(f.rows, 4, tail));
    U32Forward(f.rows, tail);
  }

  lemma ResizeBackward(b: Bytes)
    requires GetResize(b).Got?
    ensures var g := GetResize(b); g.value.Resize? && b == IntTo(g.value.columns, 4, IntTo(g.value.rows, 4, g.rest))
  {
    U32Backward(b);
    U32Backward(GetU32(b).rest);
  }

  /** The body of `f` is read back, whatever follows it. */
  ghost predicate ClientReadsBack(f: ClientFrame, tail: Bytes) {
    ParseClientBody(ClientTag(f), ClientBodyTo(f, tail)) == Got(f, tail)
  }

  lemma RequestForward(f: ClientFrame, tail: Bytes)
    requires ClientFits(f) && (f.Exec? || f.Shell?)
    ensures ClientReadsBack(f, tail)
  {
    if f.Exec? {
      ExecForward(f, tail);
    } else {
      ShellForward(f, tail);
    }
  }

  lemma StreamForward(f: ClientFrame, tail: Bytes)
    requires ClientFits(f) && (f.Input? || f.Resize?)
    ensures ClientReadsBack(f, tail)
  {
    if f.Input? {
      BytesForward(f.bytes, OUTPUT_CHUNK_BYTES, tail);
    } else {
      ResizeForward(f, tail);
    }
  }

  lemma DisconnectForward(alias: Str, tail: Bytes)
    requires Fits(alias, MAX_ALIAS_BYTES)
    ensures ClientReadsBack(Disconnect(alias), tail)
  {
    StringForward(alias, MAX_ALIAS_BYTES, tail);
  }

  lemma ResponseForward(auth: Option<AuthRequest>, tail: Bytes)
    requires AuthFits(auth)
    ensures ClientReadsBack(JumpAuthResponse(auth), tail)
  {
    AuthForward(auth, tail);
  }

  lemma ClientBodyForward(f: ClientFrame, tail: Bytes)
    requires ClientFits(f)
    ensures ClientReadsBack(f, tail)
  {
    if f.Exec? || f.Shell? {
      RequestForward(f, tail);
    } else if f.Input? || f.Resize? {
      StreamForward(f, tail);
    } else if f.Disconnect? {
      DisconnectForward(f.alias, tail);
    } else if f.JumpAuthResponse? {
      ResponseForward(f.auth, tail);
    }
  }

  /** A written frame is read back, whatever follows it. */
  lemma ClientForward(f: ClientFrame, tail: Bytes)
    requires ClientFits(f)
    ensures ParseClient(ClientTo(f, tail)) == Got(f, tail)
  {
    ByteForward(ClientTag(f), ClientBodyTo(f, tail));
    ClientBodyForward(f, tail);
  }

  lemma ClientBodyBackward(tag: byte, r: Bytes)
    requires ParseClientBody(tag, r).Got?
    ensures var g := ParseClientBody(tag, r);
            ClientFits(g.value) && ClientTag(g.value) == tag && r == ClientBodyTo(g.value, g.rest)
  {
    if tag == 3 {
      StringBackward(r, MAX_ALIAS_BYTES);
    } else if tag == 4 {
      ExecBackward(r);
    } else if tag == 5 {
      ShellBackward(r);
    } else if tag == 6 {
      BytesBackward(r, OUTPUT_CHUNK_BYTES);
    } else if tag == 7 {
      ResizeBackward(r);
    } else if tag == 10 {
      AuthBackward(r);
    }
  }

  /** Whatever is read as a frame is exactly that frame's encoding. */
  lemma ClientBackward(b: Bytes)
    requires ParseClient(b).Got?
    ensures var g := ParseClient(b); ClientFits(g.value) && b == ClientTo(g.value, g.rest)
  {
    ByteBackward(b);
    ClientBodyBackward(b[0], b[1..]);
  }

  /** Client encoding and decoding are inverse to each other, in both directions. */
  lemma ClientCodecIsInverse(f: ClientFrame, b: Bytes)
    ensures EncodeClient(f) == Ok(b) <==> DecodeClient(b) == Ok(f)
  {
    if EncodeClient(f) == Ok(b) {
      ClientForward(f, []);
    }
    if DecodeClient(b) == Ok(f) {
      ClientBackward(b);
    }
  }

  lemma AuthSize(auth: Option<AuthRequest>, tail: Bytes)
    requires AuthFits(auth)
    ensures |tail| < |AuthTo(auth, tail)| <= |tail| + 2 * MAX_SECRET_BYTES
  {
  }

  /** Every encodable client frame is a legal payload. */
  lemma ClientFrameFits(f: ClientFrame)
    requires ClientFits(f)
    ensures 1 <= |ClientTo(f, [])| <= 1048576
  {
    match f
    case Exec(_, auth, command, asUser) => AuthSize(auth, BytesTo(command, OptionalTo(asUser, [])));
    case Shell(_, auth, term, columns, rows, asUser) =>
      AuthSize(auth, BytesTo(term, IntTo(columns, 4, IntTo(rows, 4, OptionalTo(asUser, [])))));
    case JumpAuthResponse(auth) => AuthSize(auth, []);
    case _ =>
  }

  // ---------- Server frames ----------

  function CountersTo(c: Counters, tail: Bytes): Bytes {
    IntTo(c.total, 8, IntTo(c.inUse, 8, IntTo(c.leases, 8, IntTo(c.max, 8, IntTo(c.available, 8, tail)))))
  }

  function GetCounters(b: Bytes): Parsed<Counters> {
    var (total, r1) :- GetU64(b);
    var (inUse, r2) :- GetU64(r1);
    var (leases, r3) :- GetU64(r2);
    var (max, r4) :- GetU64(r3);
    var (available, r5) :- GetU64(r4);
    Got(Counters(total, inUse, leases, max, available), r5)
  }

  /** `put_usize_u32` refuses positions that do not fit four bytes. */
  predicate ChallengeFits(c: Challenge) {
    && c.index < 0x1_0000_0000 && c.total < 0x1_0000_0000 && c.attempt < 0x1_0000_0000
    && Fits(c.alias, MAX_ALIAS_BYTES) && Fits(c.host, MAX_PATH_BYTES)
  }

  function ChallengeTo(c: Challenge, tail: Bytes): Bytes {
    IntTo(c.index, 4, IntTo(c.total, 4, IntTo(c.attempt, 4,
      BytesTo(c.alias, BytesTo(c.host, IntTo(c.port, 2, BoolTo(c.previousFailed, tail)))))))
  }

  function GetChallenge(b: Bytes): Parsed<ServerFrame> {
    var (index, r1) :- GetU32(b);
    var (total, r2) :- GetU32(r1);
    var (attempt, r3) :- GetU32(r2);
    var (alias, r4) :- GetString(r3, MAX_ALIAS_BYTES);
    var (host, r5) :- GetString(r4, MAX_PATH_BYTES);
    var (port, r6) :- GetU16(r5);
    var (failed, r7) :- GetBool(r6);
    Got(JumpAuthChallenge(Challenge(index, total, attempt, alias, host, port, failed)), r7)
  }

  function ExitTo(status: Option<U32>, tail: Bytes): Bytes {
    if status.Some? then ByteTo(1, IntTo(status.value, 4, tail)) else ByteTo(0, tail)
  }

  function GetExit(b: Bytes): Parsed<Option<U32>> {
    var (present, r) :- GetByte(b);
    if present == 0 then Got(None, r)
    else if present == 1 then
      var (status, r2) :- GetU32(r);
      Got(Some(status), r2)
    else Bad
  }

  /** `encode_server` succeeds. */
  predicate ServerFits(frame: ServerFrame) {
    match frame
    case Error(message) => Fits(message, MAX_COMMAND_BYTES)
    case Stdout(bytes) => Fits(bytes, OUTPUT_CHUNK_BYTES)
    case Stderr(bytes) => Fits(bytes, OUTPUT_CHUNK_BYTES)
    case JumpAuthChallenge(c) => ChallengeFits(c)
    case _ => true
  }

  function ServerTag(frame: ServerFrame): byte {
    match frame
    case Done => 64
    case Error(_) => 65
    case AuthRequired => 66
    case Stdout(_) => 67
    case Stderr(_) => 68
    case Exit(_) => 69
    case StatusReport(_) => 70
    case Cache(_) => 71
    case JumpAuthChallenge(_) => 72
  }

  function ServerBodyTo(frame: ServerFrame, tail: Bytes): Bytes {
    match frame
    case Error(message) => BytesTo(message, tail)
    case Stdout(bytes) => BytesTo(bytes, tail)
    case Stderr(bytes) => BytesTo(bytes, tail)
    case Exit(status) => ExitTo(status, tail)
    case StatusReport(c) => CountersTo(c, tail)
    case Cache(reused) => BoolTo(reused, tail)
    case JumpAuthChallenge(c) => ChallengeTo(c, tail)
    case _ => tail
  }

  function ServerTo(frame: ServerFrame, tail: Bytes): Bytes {
    ByteTo(ServerTag(frame), ServerBodyTo(frame, tail))
  }

  function EncodeServer(frame: ServerFrame): Result<Bytes> {
    if ServerFits(frame) then Ok(ServerTo(frame, [])) else Err
  }

  /** A server frame at the front of the bytes. */
  function ParseServer(b: Bytes): Parsed<ServerFrame> {
    var (tag, r) :- GetByte(b);
    ParseServerBody(tag, r)
  }

  function ParseServerBody(tag: byte, r: Bytes): Parsed<ServerFrame> {
    if tag == 64 then Got(Done, r)
    else if tag == 65 then
      var (m, r2) :- GetString(r, MAX_COMMAND_BYTES);
      Got(Error(m), r2)
    else if tag == 66 then Got(AuthRequired, r)
    else if tag == 67 then
      var (bytes, r2) :- GetBytes(r, OUTPUT_CHUNK_BYTES);
      Got(Stdout(bytes), r2)
    else if tag == 68 then
      var (bytes, r2) :- GetBytes(r, OUTPUT_CHUNK_BYTES);
      Got(Stderr(bytes), r2)
    else if tag == 69 then
      var (status, r2) :- GetExit(r);
      Got(Exit(status), r2)
    else if tag == 70 then
      var (c, r2) :- GetCounters(r);
      Got(StatusReport(c), r2)
    else if tag == 71 then
      var (reused, r2) :- GetBool(r);
      Got(Cache(reused), r2)
    else if tag == 72 then GetChallenge(r)
    else Bad
  }

  function DecodeServer(payload: Bytes): Result<ServerFrame> {
    Finish(ParseServer(payload))
  }

  lemma CountersForward(c: Counters, tail: Bytes)
    ensures GetCounters(CountersTo(c, tail)) == Got(c, tail)
  {
    var e := IntTo(c.available, 8, tail);
    var d := IntTo(c.max, 8, e);
    var l := IntTo(c.leases, 8, d);
    U64Forward(c.total, IntTo(c.inUse, 8, l));
    U64Forward(c.inUse, l);
    U64Forward(c.leases, d);
    U64Forward(c.max, e);
    U64Forward(c.available, tail);
  }

  lemma CountersBackward(b: Bytes)
    requires GetCounters(b).Got?
    ensures b == CountersTo(GetCounters(b).value, GetCounters(b).rest)
  {
    U64Backward(b);
    U64Backward(GetU64(b).rest);
    U64Backward(GetU64(GetU64(b).rest).rest);
    U64Backward(GetU64(GetU64(GetU64(b).rest).rest).rest);
    U64Backward(GetU64(GetU64(GetU64(GetU64(b).rest).rest).rest).rest);
  }

  lemma ChallengeForward(c: Challenge, tail: Bytes)
    requires ChallengeFits(c)
    ensures GetChallenge(ChallengeTo(c, tail)) == Got(JumpAuthChallenge(c), tail)
  {
    var f := BoolTo(c.previousFailed, tail);
    var p := IntTo(c.port, 2, f);
    var h := BytesTo(c.host, p);
    var a := BytesTo(c.alias, h);
    var k := IntTo(c.attempt, 4, a);
    U32Forward(c.index, IntTo(c.total, 4, k));
    U32Forward(c.total, k);
    U32Forward(c.attempt, a);
    StringForward(c.alias, MAX_ALIAS_BYTES, h);
    StringForward(c.host, MAX_PATH_BYTES, p);
    U16Forward(c.port, f);
    BoolForward(c.previousFailed, tail);
  }

  lemma ChallengeBackward(b: Bytes)
    requires GetChallenge(b).Got?
    ensures var g := GetChallenge(b);
            g.value.JumpAuthChallenge? && ChallengeFits(g.value.challenge)
                && b == ChallengeTo(g.value.challenge, g.rest)
  {
    var g1 := GetU32(b);
    var g2 := GetU32(g1.rest);
    var g3 := GetU32(g2.rest);
    var g4 := GetString(g3.rest, MAX_ALIAS_BYTES);
    var g5 := GetString(g4.rest, MAX_PATH_BYTES);
    U32Backward(b);
    U32Backward(g1.rest);
    U32Backward(g2.rest);
    StringBackward(g3.rest, MAX_ALIAS_BYTES);
    StringBackward(g4.rest, MAX_PATH_BYTES);
    U16Backward(g5.rest);
    BoolBackward(GetU16(g5.rest).rest);
  }

  lemma ExitForward(status: Option<U32>, tail: Bytes)
    ensures GetExit(ExitTo(status, tail)) == Got(status, tail)
  {
    if status.Some? {
      ByteForward(1, IntTo(status.value, 4, tail));
      U32Forward(status.value, tail);
    } else {
      ByteForward(0, tail);
    }
  }

  lemma ExitBackward(b: Bytes)
    requires GetExit(b).Got?
    ensures b == ExitTo(GetExit(b).value, GetExit(b).rest)
  {
    ByteBackward(b);
    if b[0] == 1 {
      U32Backward(b[1..]);
    }
  }

  /** The body of `f` is read back, whatever follows it. */
  ghost predicate ServerReadsBack(f: ServerFrame, tail: Bytes) {
    ParseServerBody(ServerTag(f), ServerBodyTo(f, tail)) == Got(f, tail)
  }

  lemma OutputForward(f: ServerFrame, tail: Bytes)
    requires ServerFits(f) && (f.Stdout? || f.Stderr? || f.Error?)
    ensures ServerReadsBack(f, tail)
  {
    if f.Error? {
      StringForward(f.message, MAX_COMMAND_BYTES, tail);
    } else {
      BytesForward(f.bytes, OUTPUT_CHUNK_BYTES, tail);
    }
  }

  lemma ExitFrame(r: Bytes, status: Option<U32>, tail: Bytes)
    requires GetExit(r) == Got(status, tail)
    ensures ParseServerBody(69, r) == Got(Exit(status), tail)
  {
  }

  lemma StatusFrame(r: Bytes, c: Counters, tail: Bytes)
    requires GetCounters(r) == Got(c, tail)
    ensures ParseServerBody(70, r) == Got(StatusReport(c), tail)
  {
  }

  lemma ChallengeFrame(r: Bytes)
    ensures ParseServerBody(72, r) == GetChallenge(r)
  {
  }

  lemma ReportForward(f: ServerFrame, tail: Bytes)
    requires ServerFits(f) && (f.Exit? || f.StatusReport?)
    ensures ServerReadsBack(f, tail)
  {
    if f.Exit? {
      ExitForward(f.status, tail);
      ExitFrame(ExitTo(f.status, tail), f.status, tail);
    } else {
      CountersForward(f.counters, tail);
      StatusFrame(CountersTo(f.counters, tail), f.counters, tail);
    }
  }

  lemma CacheForward(reused: bool, tail: Bytes)
    ensures ServerReadsBack(Cache(reused), tail)
  {
    BoolForward(reused, tail);
  }

  lemma ChallengeBody(c: Challenge, tail: Bytes)
    ensures ServerBodyTo(JumpAuthChallenge(c), tail) == ChallengeTo(c, tail)
  {
  }

  lemma ChallengeParsed(r: Bytes, c: Challenge, tail: Bytes)
    requires GetChallenge(r) == Got(JumpAuthChallenge(c), tail)
    requires ServerBodyTo(JumpAuthChallenge(c), tail) == r
    ensures ServerReadsBack(JumpAuthChallenge(c), tail)
  {
    ChallengeFrame(r);
  }

  lemma ChallengeFrameForward(c: Challenge, tail: Bytes)
    requires ChallengeFits(c)
    ensures ServerReadsBack(JumpAuthChallenge(c), tail)
  {
    ChallengeForward(c, tail);
    ChallengeBody(c, tail);
    ChallengeParsed(ChallengeTo(c, tail), c, tail);
  }

  lemma ServerBodyForward(f: ServerFrame, tail: Bytes)
    requires ServerFits(f)
    ensures ServerReadsBack(f, tail)
  {
    if f.Stdout? || f.Stderr? || f.Error? {
      OutputForward(f, tail);
    } else if f.Exit? || f.StatusReport? {
      ReportForward(f, tail);
    } else if f.Cache? {
      CacheForward(f.reused, tail);
    } else if f.JumpAuthChallenge? {
      ChallengeFrameForward(f.challenge, tail);
    }
  }

  /** A written frame is read back, whatever follows it. */
  lemma ServerForward(f: ServerFrame, tail: Bytes)
    requires ServerFits(f)
    ensures ParseServer(ServerTo(f, tail)) == Got(f, tail)
  {
    ByteForward(ServerTag(f), ServerBodyTo(f, tail));
    ServerBodyForward(f, tail);
  }

  lemma ServerBodyBackward(tag: byte, r: Bytes)
    requires ParseServerBody(tag, r).Got?
    ensures var g := ParseServerBody(tag, r);
            ServerFits(g.value) && ServerTag(g.value) == tag && r == ServerBodyTo(g.value, g.rest)
  {
    if tag == 65 {
      StringBackward(r, MAX_COMMAND_BYTES);
    } else if tag == 67 || tag == 68 {
      BytesBackward(r, OUTPUT_CHUNK_BYTES);
    } else if tag == 69 {
      ExitBackward(r);
    } else if tag == 70 {
      CountersBackward(r);
    } else if tag == 71 {
      BoolBackward(r);
    } else if tag == 72 {
      ChallengeBackward(r);
    }
  }

  /** Whatever is read as a frame is exactly that frame's encoding. */
  lemma ServerBackward(b: Bytes)
    requires ParseServer(b).Got?
    ensures var g := ParseServer(b); ServerFits(g.value) && b == ServerTo(g.value, g.rest)
  {
    ByteBackward(b);
    ServerBodyBackward(b[0], b[1..]);
  }

  /** Server encoding and decoding are inverse to each other, in both directions. */
  lemma ServerCodecIsInverse(f: ServerFrame, b: Bytes)
    ensures EncodeServer(f) == Ok(b) <==> DecodeServer(b) == Ok(f)
  {
    if EncodeServer(f) == Ok(b) {
      ServerForward(f, []);
    }
    if DecodeServer(b) == Ok(f) {
      ServerBackward(b);
    }
  }

  /** Every encodable server frame is a legal payload. */
  lemma ServerFrameFits(f: ServerFrame)
    requires ServerFits(f)
    ensures 1 <= |ServerTo(f, [])| <= 1048576
  {
  }
}
