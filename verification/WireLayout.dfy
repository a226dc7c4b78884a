/** The bytes of every frame of the daemon protocol, written out: protocol.rs. */
module WireLayout {
  import opened Wrappers
  import opened Text
  import opened WireBasics
  import opened Wire

  // ---------- Pieces ----------

  function Two(n: U16): Bytes {
    [n / 256, n % 256]
  }

  function Four(n: U32): Bytes {
    [n / 16777216, n / 65536 % 256, n / 256 % 256, n % 256]
  }

  function Eight(n: U64): Bytes {
    Four(n / 4294967296) + [n / 16777216 % 256, n / 65536 % 256, n / 256 % 256, n % 256]
  }

  /** A length in four bytes, most significant first, and then the bytes. */
  function Counted(b: Bytes): Bytes
    requires |b| < 0x1_0000_0000
  {
    Four(|b|) + b
  }

  function Flagged(v: Option<Str>): Bytes
    requires v.Some? ==> |v.value| < 0x1_0000_0000
  {
    if v.Some? then [1] + Counted(v.value) else [0]
  }

  function Flag(v: bool): Bytes {
    if v then [1] else [0]
  }

  // ---------- What may be sent ----------

  predicate AuthAllowed(auth: Option<AuthRequest>) {
    match auth
    case Some(Password(secret)) => |secret| <= 65536
    case Some(KeyboardInteractive(secret)) => |secret| <= 65536
    case Some(PrivateKey(path, passphrase)) =>
      IsUtf8(path) && |path| <= 4096 && (passphrase.Some? ==> |passphrase.value| <= 65536)
    case _ => true
  }

  predicate UserAllowed(asUser: Option<Str>) {
    asUser.Some? ==> |asUser.value| <= 128
  }

  predicate ClientAllowed(f: ClientFrame) {
    match f
    case Disconnect(alias) => |alias| <= 128
    case Exec(alias, auth, command, asUser) =>
      |alias| <= 128 && AuthAllowed(auth) && |command| <= 262144 && UserAllowed(asUser)
    case Shell(alias, auth, term, _, _, asUser) =>
      |alias| <= 128 && AuthAllowed(auth) && |term| <= 256 && UserAllowed(asUser)
    case Input(bytes) => |bytes| <= 16384
    case JumpAuthResponse(auth) => AuthAllowed(auth)
    case _ => true
  }

  predicate ServerAllowed(f: ServerFrame) {
    match f
    case Error(message) => |message| <= 262144
    case Stdout(bytes) => |bytes| <= 16384
    case Stderr(bytes) => |bytes| <= 16384
    case JumpAuthChallenge(c) =>
      && c.index < 0x1_0000_0000 && c.total < 0x1_0000_0000 && c.attempt < 0x1_0000_0000
      && |c.alias| <= 128 && |c.host| <= 4096
    case _ => true
  }

  // ---------- Layouts ----------

  function AuthLayout(auth: Option<AuthRequest>): Bytes
    requires AuthAllowed(auth)
  {
    match auth
    case None => [0]
    case Some(Auto) => [1]
    case Some(Agent) => [2]
    case Some(Password(secret)) => [3] + Counted(secret)
    case Some(KeyboardInteractive(secret)) => [4] + Counted(secret)
    case Some(PrivateKey(path, passphrase)) => [5] + (Counted(path) + Flagged(passphrase))
  }

  function ClientLayout(f: ClientFrame): Bytes
    requires ClientAllowed(f)
  {
    match f
    case Ping => [1]
    case Status => [2]
    case Disconnect(alias) => [3] + Counted(alias)
    case Exec(alias, auth, command, asUser) =>
      [4] + (Counted(alias) + (AuthLayout(auth) + (Counted(command) + Flagged(asUser))))
    case Shell(alias, auth, term, columns, rows, asUser) =>
      [5] + (Counted(alias) +
        (AuthLayout(auth) + (Counted(term) + (Four(columns) + (Four(rows) + Flagged(asUser))))))
    case Input(bytes) => [6] + Counted(bytes)
    case Resize(columns, rows) => [7] + (Four(columns) + Four(rows))
    case Eof => [8]
    case Shutdown => [9]
    case JumpAuthResponse(auth) => [10] + AuthLayout(auth)
  }

  function ServerLayout(f: ServerFrame): Bytes
    requires ServerAllowed(f)
  {
    match f
    case Done => [64]
    case Error(message) => [65] + Counted(message)
    case AuthRequired => [66]
    case Stdout(bytes) => [67] + Counted(bytes)
    case Stderr(bytes) => [68] + Counted(bytes)
    case Exit(status) => [69] + (if status.Some? then [1] + Four(status.value) else [0])
    case StatusReport(c) =>
      [70] + (Eight(c.total) + (Eight(c.inUse) + (Eight(c.leases) + (Eight(c.max) + Eight(c.available)))))
    case Cache(reused) => [71] + Flag(reused)
    case JumpAuthChallenge(c) =>
      [72] + (Four(c.index) + (Four(c.total) + (Four(c.attempt) +
        (Counted(c.alias) + (Counted(c.host) + (Two(c.port) + Flag(c.previousFailed)))))))
  }

  // ---------- The writers lay out just that ----------

  lemma IntsAreLaidOut(n: nat)
    ensures n < 0x1_0000 ==> BigEndian(n, 2) == Two(n)
    ensures n < 0x1_0000_0000 ==> BigEndian(n, 4) == Four(n)
  {
    assert BigEndian(n, 1) == [n % 256];
    assert BigEndian(n / 256, 1) == [n / 256 % 256];
    assert BigEndian(n, 2) == [n / 256 % 256, n % 256];
    var h := n / 65536;
    assert n / 256 / 256 == h;
    assert BigEndian(h, 1) == [h % 256] && BigEndian(h / 256, 1) == [h / 256 % 256];
    assert BigEndian(h, 2) == [h / 256 % 256, h % 256];
    assert BigEndian(n / 256, 3) == BigEndian(h, 2) + [n / 256 % 256];
    assert BigEndian(n, 4) == BigEndian(n / 256, 3) + [n % 256];
    assert h / 256 == n / 16777216;
  }

  lemma LongsAreLaidOut(n: U64)
    ensures BigEndian(n, 8) == Eight(n)
  {
    var a, b, c, h := n / 256, n / 65536, n / 16777216, n / 4294967296;
    assert a / 256 == b && b / 256 == c && c / 256 == h;
    assert BigEndian(n, 8) == BigEndian(a, 7) + [n % 256];
    assert BigEndian(a, 7) == BigEndian(b, 6) + [a % 256];
    assert BigEndian(b, 6) == BigEndian(c, 5) + [b % 256];
    assert BigEndian(c, 5) == BigEndian(h, 4) + [c % 256];
    IntsAreLaidOut(h);
  }

  // Writers put a piece in front of what follows.

  lemma CountedTo(b: Bytes, tail: Bytes)
    requires |b| < 0x1_0000_0000
    ensures BytesTo(b, tail) == Counted(b) + tail
  {
    IntsAreLaidOut(|b|);
  }

  lemma FlaggedTo(v: Option<Str>, tail: Bytes)
    requires v.Some? ==> |v.value| < 0x1_0000_0000
    ensures OptionalTo(v, tail) == Flagged(v) + tail
  {
    if v.Some? {
      CountedTo(v.value, tail);
    }
  }

  lemma AuthLaidOut(auth: Option<AuthRequest>, tail: Bytes)
    requires AuthAllowed(auth)
    ensures AuthTo(auth, tail) == AuthLayout(auth) + tail
  {
    match auth
    case None =>
    case Some(Auto) =>
    case Some(Agent) =>
    case Some(Password(secret)) => CountedTo(secret, tail);
    case Some(KeyboardInteractive(secret)) => CountedTo(secret, tail);
    case Some(PrivateKey(path, passphrase)) =>
      CountedTo(path, OptionalTo(passphrase, tail));
      FlaggedTo(passphrase, tail);
      Reassociate(Counted(path), Flagged(passphrase), tail);
  }

  lemma AllowedIsFits(auth: Option<AuthRequest>)
    ensures AuthFits(auth) <==> AuthAllowed(auth)
  {
  }

  lemma ClientAllowedIsFits(f: ClientFrame)
    ensures ClientFits(f) <==> ClientAllowed(f)
  {
    match f
    case Exec(_, auth, _, _) => AllowedIsFits(auth);
    case Shell(_, auth, _, _, _, _) => AllowedIsFits(auth);
    case JumpAuthResponse(auth) => AllowedIsFits(auth);
    case _ =>
  }

  lemma NothingFollows(b: Bytes)
    ensures b + [] == b
  {
  }

  lemma ExecLaidOut(f: ClientFrame)
    requires f.Exec? && ClientAllowed(f)
    ensures ClientTo(f, []) == ClientLayout(f)
  {
    FlaggedTo(f.asUser, []);
    NothingFollows(Flagged(f.asUser));
    var c := Flagged(f.asUser);
    CountedTo(f.command, c);
    AuthLaidOut(f.auth, Counted(f.command) + c);
    CountedTo(f.alias, AuthLayout(f.auth) + (Counted(f.command) + c));
  }

  lemma ShellLaidOut(f: ClientFrame)
    requires f.Shell? && ClientAllowed(f)
    ensures ClientTo(f, []) == ClientLayout(f)
  {
    FlaggedTo(f.asUser, []);
    NothingFollows(Flagged(f.asUser));
    IntsAreLaidOut(f.columns);
    IntsAreLaidOut(f.rows);
    var sizes := Four(f.columns) + (Four(f.rows) + Flagged(f.asUser));
    CountedTo(f.term, sizes);
    AuthLaidOut(f.auth, Counted(f.term) + sizes);
    CountedTo(f.alias, AuthLayout(f.auth) + (Counted(f.term) + sizes));
  }

  lemma OtherClientLaidOut(f: ClientFrame)
    requires !f.Exec? && !f.Shell? && ClientAllowed(f)
    ensures ClientTo(f, []) == ClientLayout(f)
  {
    match f
    case Disconnect(alias) =>
      CountedTo(alias, []);
      NothingFollows(Counted(alias));
    case Input(bytes) =>
      CountedTo(bytes, []);
      NothingFollows(Counted(bytes));
    case Resize(columns, rows) =>
      IntsAreLaidOut(columns);
      IntsAreLaidOut(rows);
      NothingFollows(Four(rows));
    case JumpAuthResponse(auth) =>
      AuthLaidOut(auth, []);
      NothingFollows(AuthLayout(auth));
    case _ =>
  }

  /** A client frame is encoded exactly if it is allowed, and then as laid out. */
  lemma ClientIsLaidOut(f: ClientFrame)
    ensures EncodeClient(f) == if ClientAllowed(f) then Ok(ClientLayout(f)) else Err
  {
    ClientAllowedIsFits(f);
    if ClientAllowed(f) {
      if f.Exec? {
        ExecLaidOut(f);
      } else if f.Shell? {
        ShellLaidOut(f);
      } else {
        OtherClientLaidOut(f);
      }
    }
  }

  lemma CountersLaidOut(c: Counters)
    ensures CountersTo(c, []) ==
            Eight(c.total) + (Eight(c.inUse) + (Eight(c.leases) + (Eight(c.max) + Eight(c.available))))
  {
    LongsAreLaidOut(c.total);
    LongsAreLaidOut(c.inUse);
    LongsAreLaidOut(c.leases);
    LongsAreLaidOut(c.max);
    LongsAreLaidOut(c.available);
    NothingFollows(Eight(c.available));
  }

  lemma ChallengeLaidOut(c: Challenge)
    requires ServerAllowed(JumpAuthChallenge(c))
    ensures ChallengeTo(c, []) ==
            Four(c.index) + (Four(c.total) + (Four(c.attempt) +
              (Counted(c.alias) + (Counted(c.host) + (Two(c.port) + Flag(c.previousFailed))))))
  {
    IntsAreLaidOut(c.index);
    IntsAreLaidOut(c.total);
    IntsAreLaidOut(c.attempt);
    IntsAreLaidOut(c.port);
    var end := Two(c.port) + Flag(c.previousFailed);
    CountedTo(c.host, end);
    CountedTo(c.alias, Counted(c.host) + end);
  }

  lemma PlainServerLaidOut(f: ServerFrame)
    requires ServerAllowed(f) && (f.Error? || f.Stdout? || f.Stderr? || f.Exit?)
    ensures ServerTo(f, []) == ServerLayout(f)
  {
    if f.Exit? {
      if f.status.Some? {
        IntsAreLaidOut(f.status.value);
        NothingFollows(Four(f.status.value));
      }
    } else {
      var text := if f.Error? then f.message else f.bytes;
      CountedTo(text, []);
      NothingFollows(Counted(text));
    }
  }

  lemma ShortServerLaidOut(f: ServerFrame)
    requires f.Done? || f.AuthRequired? || f.Cache?
    ensures ServerTo(f, []) == ServerLayout(f)
  {
    if f.Cache? {
      assert BoolTo(f.reused, []) == Flag(f.reused);
    } else {
      NothingFollows([ServerTag(f)]);
    }
  }

  /** A server frame is encoded exactly if it is allowed, and then as laid out. */
  lemma ServerIsLaidOut(f: ServerFrame)
    ensures EncodeServer(f) == if ServerAllowed(f) then Ok(ServerLayout(f)) else Err
  {
    if ServerAllowed(f) {
      if f.StatusReport? {
        CountersLaidOut(f.counters);
      } else if f.JumpAuthChallenge? {
        ChallengeLaidOut(f.challenge);
      } else if f.Error? || f.Stdout? || f.Stderr? || f.Exit? {
        PlainServerLaidOut(f);
      } else {
        ShortServerLaidOut(f);
      }
    }
  }

  /** Hence exactly these bytes are read as these frames. */
  lemma ReadAsLaidOut(c: ClientFrame, s: ServerFrame, b: Bytes)
    ensures DecodeClient(b) == Ok(c) <==> ClientAllowed(c) && b == ClientLayout(c)
    ensures DecodeServer(b) == Ok(s) <==> ServerAllowed(s) && b == ServerLayout(s)
  {
    ClientCodecIsInverse(c, b);
    ClientIsLaidOut(c);
    ServerCodecIsInverse(s, b);
    ServerIsLaidOut(s);
  }
}
