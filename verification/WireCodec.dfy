/**
 * The encoder that grows a byte vector and the cursor that walks over a payload:
 * protocol.rs. Each method is tied to the writers and readers of `Wire`.
 */
module WireCodec {
  import opened Wrappers
  import opened Text
  import opened WireBasics
  import opened Wire

  /**
   * The vector `out`. The ghost argument `rest` of each method is what will be appended later, so that
   * "`out` followed by `rest`" is preserved while fields move from `rest` into `out`.
   */
  class Encoder {
    var out: Bytes

    constructor ()
      ensures out == []
    {
      out := [];
    }

    method Push(v: byte, ghost rest: Bytes)
      modifies this
      ensures out + rest == old(out) + ByteTo(v, rest)
    {
      assert (out + [v]) + rest == out + ([v] + rest);
      out := out + [v];
    }

    method PutInt(n: nat, w: nat, ghost rest: Bytes)
      modifies this
      ensures out + rest == old(out) + IntTo(n, w, rest)
    {
      assert (out + BigEndian(n, w)) + rest == out + (BigEndian(n, w) + rest);
      out := out + BigEndian(n, w);
    }

    method PutBytes(bytes: Bytes, max: nat, ghost rest: Bytes) returns (r: Result<()>)
      modifies this
      ensures r.Ok? <==> Fits(bytes, max)
      ensures r.Ok? ==> out + rest == old(out) + BytesTo(bytes, rest)
    {
      if |bytes| > max || |bytes| >= 0x1_0000_0000 {
        return Err;
      }
      PutInt(|bytes|, 4, bytes + rest);
      assert (out + bytes) + rest == out + (bytes + rest);
      out := out + bytes;
      r := Ok(());
    }

    method PutOptional(v: Option<Str>, max: nat, ghost rest: Bytes) returns (r: Result<()>)
      modifies this
      ensures r.Ok? <==> FitsOptional(v, max)
      ensures r.Ok? ==> out + rest == old(out) + OptionalTo(v, rest)
    {
      match v
      case None =>
        Push(0, rest);
        r := Ok(());
      case Some(s) =>
        Push(1, BytesTo(s, rest));
        r := PutBytes(s, max, rest);
    }

    method PutAuth(auth: Option<AuthRequest>, ghost rest: Bytes) returns (r: Result<()>)
      modifies this
      ensures r.Ok? <==> AuthFits(auth)
      ensures r.Ok? ==> out + rest == old(out) + AuthTo(auth, rest)
    {
      r := Ok(());
      if auth.None? {
        Push(0, rest);
      } else {
        match auth.value
        case Auto => Push(1, rest);
        case Agent => Push(2, rest);
        case Password(secret) =>
          Push(3, BytesTo(secret, rest));
          r := PutBytes(secret, MAX_SECRET_BYTES, rest);
        case KeyboardInteractive(secret) =>
          Push(4, BytesTo(secret, rest));
          r := PutBytes(secret, MAX_SECRET_BYTES, rest);
        case PrivateKey(path, passphrase) =>
          ghost var tail := OptionalTo(passphrase, rest);
          Push(5, BytesTo(path, tail));
          var _ :- Need(IsUtf8(path));
          var _ :- PutBytes(path, MAX_PATH_BYTES, tail);
          r := PutOptional(passphrase, MAX_SECRET_BYTES, rest);
      }
    }

    method PutExec(f: ClientFrame) returns (r: Result<()>)
      requires f.Exec?
      modifies this
      ensures r.Ok? <==> ClientFits(f)
      ensures r.Ok? ==> out == old(out) + ClientBodyTo(f, [])
    {
      ghost var user := OptionalTo(f.asUser, []);
      ghost var command := BytesTo(f.command, user);
      var _ :- PutBytes(f.alias, MAX_ALIAS_BYTES, AuthTo(f.auth, command));
      var _ :- PutAuth(f.auth, command);
      var _ :- PutBytes(f.command, MAX_COMMAND_BYTES, user);
      r := PutOptional(f.asUser, MAX_ALIAS_BYTES, []);
      assert out + [] == out;
    }

    method PutShell(f: ClientFrame) returns (r: Result<()>)
      requires f.Shell?
      modifies this
      ensures r.Ok? <==> ClientFits(f)
      ensures r.Ok? ==> out == old(out) + ClientBodyTo(f, [])
    {
      ghost var user := OptionalTo(f.asUser, []);
      ghost var rows := IntTo(f.rows, 4, user);
      ghost var columns := IntTo(f.columns, 4, rows);
      ghost var term := BytesTo(f.term, columns);
      var _ :- PutBytes(f.alias, MAX_ALIAS_BYTES, AuthTo(f.auth, term));
      var _ :- PutAuth(f.auth, term);
      var _ :- PutBytes(f.term, MAX_TERM_BYTES, columns);
      PutInt(f.columns, 4, rows);
      PutInt(f.rows, 4, user);
      r := PutOptional(f.asUser, MAX_ALIAS_BYTES, []);
      assert out + [] == out;
    }

    method PutClientBody(f: ClientFrame) returns (r: Result<()>)
      modifies this
      ensures r.Ok? <==> ClientFits(f)
      ensures r.Ok? ==> out == old(out) + ClientBodyTo(f, [])
    {
      r := Ok(());
      match f
      case Disconnect(alias) => r := PutBytes(alias, MAX_ALIAS_BYTES, []);
      case Exec(_, _, _, _) => r := PutExec(f);
      case Shell(_, _, _, _, _, _) => r := PutShell(f);
      case Input(bytes) => r := PutBytes(bytes, OUTPUT_CHUNK_BYTES, []);
      case Resize(columns, rows) =>
        PutInt(columns, 4, IntTo(rows, 4, []));
        PutInt(rows, 4, []);
      case JumpAuthResponse(auth) => r := PutAuth(auth, []);
      case _ =>
      assert out + [] == out;
    }

    method PutCounters(c: Counters)
      modifies this
      ensures out == old(out) + CountersTo(c, [])
    {
      ghost var e := IntTo(c.available, 8, []);
      ghost var d := IntTo(c.max, 8, e);
      ghost var l := IntTo(c.leases, 8, d);
      PutInt(c.total, 8, IntTo(c.inUse, 8, l));
      PutInt(c.inUse, 8, l);
      PutInt(c.leases, 8, d);
      PutInt(c.max, 8, e);
      PutInt(c.available, 8, []);
      assert out + [] == out;
    }

    method PutPosition(n: nat, ghost rest: Bytes) returns (r: Result<()>)
      modifies this
      ensures r.Ok? <==> n < 0x1_0000_0000
      ensures r.Ok? ==> out + rest == old(out) + IntTo(n, 4, rest)
    {
      var _ :- Need(n < 0x1_0000_0000);
      PutInt(n, 4, rest);
      r := Ok(());
    }

    method PutChallenge(c: Challenge) returns (r: Result<()>)
      modifies this
      ensures r.Ok? <==> ChallengeFits(c)
      ensures r.Ok? ==> out == old(out) + ChallengeTo(c, [])
    {
      ghost var f := BoolTo(c.previousFailed, []);
      ghost var p := IntTo(c.port, 2, f);
      ghost var h := BytesTo(c.host, p);
      ghost var a := BytesTo(c.alias, h);
      ghost var k := IntTo(c.attempt, 4, a);
      var _ :- PutPosition(c.index, IntTo(c.total, 4, k));
      var _ :- PutPosition(c.total, k);
      var _ :- PutPosition(c.attempt, a);
      var _ :- PutBytes(c.alias, MAX_ALIAS_BYTES, h);
      var _ :- PutBytes(c.host, MAX_PATH_BYTES, p);
      PutInt(c.port, 2, f);
      Push(if c.previousFailed then 1 else 0, []);
      r := Ok(());
      assert out + [] == out;
    }

    method PutServerBody(f: ServerFrame) returns (r: Result<()>)
      modifies this
      ensures r.Ok? <==> ServerFits(f)
      ensures r.Ok? ==> out == old(out) + ServerBodyTo(f, [])
    {
      r := Ok(());
      match f
      case Error(message) => r := PutBytes(message, MAX_COMMAND_BYTES, []);
      case Stdout(bytes) => r := PutBytes(bytes, OUTPUT_CHUNK_BYTES, []);
      case Stderr(bytes) => r := PutBytes(bytes, OUTPUT_CHUNK_BYTES, []);
      case Exit(status) =>
        if status.Some? {
          Push(1, IntTo(status.value, 4, []));
          PutInt(status.value, 4, []);
        } else {
          Push(0, []);
        }
      case StatusReport(c) => PutCounters(c);
      case Cache(reused) => Push(if reused then 1 else 0, []);
      case JumpAuthChallenge(c) => r := PutChallenge(c);
      case _ =>
      assert out + [] == out;
    }
  }

  method EncodeClientFrame(f: ClientFrame) returns (r: Result<Bytes>)
    ensures r == EncodeClient(f)
  {
    var e := new Encoder();
    e.Push(ClientTag(f), ClientBodyTo(f, []));
    assert [] + ClientTo(f, []) == ClientTo(f, []);
    var _ :- e.PutClientBody(f);
    r := Ok(e.out);
  }

  method EncodeServerFrame(f: ServerFrame) returns (r: Result<Bytes>)
    ensures r == EncodeServer(f)
  {
    var e := new Encoder();
    e.Push(ServerTag(f), ServerBodyTo(f, []));
    assert [] + ServerTo(f, []) == ServerTo(f, []);
    var _ :- e.PutServerBody(f);
    r := Ok(e.out);
  }

  /** `r` and the bytes `left` behind the cursor are what reading the specified field gives. */
  ghost predicate Agrees<T>(r: Result<T>, left: Bytes, p: Parsed<T>) {
    match p
    case Bad => r.Err?
    case Got(v, rest) => r == Ok(v) && left == rest
  }

  class Cursor {
    const bytes: Bytes
    var offset: nat

    ghost predicate Valid()
      reads this
    {
      offset <= |bytes|
    }

    ghost function Left(): Bytes
      requires Valid()
      reads this
    {
      bytes[offset..]
    }

    constructor (bytes: Bytes)
      ensures Valid() && Left() == bytes
    {
      this.bytes := bytes;
      offset := 0;
    }

    method U8() returns (r: Result<byte>)
      requires Valid()
      modifies this
      ensures Valid() && Agrees(r, Left(), GetByte(old(Left())))
    {
      var _ :- Need(offset < |bytes|);
      r := Ok(bytes[offset]);
      offset := offset + 1;
    }

    method Slice(length: nat) returns (r: Result<Bytes>)
      requires Valid()
      modifies this
      ensures Valid() && Agrees(r, Left(), Take(old(Left()), length))
    {
      var end := offset + length;
      var _ :- Need(end <= |bytes|);
      r := Ok(bytes[offset..end]);
      assert bytes[offset..end] == Left()[..length] && bytes[end..] == Left()[length..];
      offset := end;
    }

    method Flag() returns (r: Result<bool>)
      requires Valid()
      modifies this
      ensures Valid() && Agrees(r, Left(), GetBool(old(Left())))
    {
      var v :- U8();
      var _ :- Need(v <= 1);
      r := Ok(v == 1);
    }

    method Int(w: nat) returns (r: Result<nat>)
      requires Valid()
      modifies this
      ensures Valid() && Agrees(r, Left(), GetInt(old(Left()), w))
    {
      var b :- Slice(w);
      r := Ok(FromBigEndian(b));
    }

    method U16() returns (r: Result<U16>)
      requires Valid()
      modifies this
      ensures Valid() && Agrees(r, Left(), GetU16(old(Left())))
    {
      var n :- Int(2);
      IntBackward(old(Left()), 2);
      Widths();
      r := Ok(n);
    }

    method U32() returns (r: Result<U32>)
      requires Valid()
      modifies this
      ensures Valid() && Agrees(r, Left(), GetU32(old(Left())))
    {
      var n :- Int(4);
      IntBackward(old(Left()), 4);
      Widths();
      r := Ok(n);
    }

    method U64() returns (r: Result<U64>)
      requires Valid()
      modifies this
      ensures Valid() && Agrees(r, Left(), GetU64(old(Left())))
    {
      var n :- Int(8);
      IntBackward(old(Left()), 8);
      Widths();
      r := Ok(n);
    }

    method Field(max: nat) returns (r: Result<Bytes>)
      requires Valid()
      modifies this
      ensures Valid() && Agrees(r, Left(), GetBytes(old(Left()), max))
    {
      var length :- Int(4);
      var _ :- Need(length <= max);
      r := Slice(length);
    }

    method String(max: nat) returns (r: Result<Str>)
      requires Valid()
      modifies this
      ensures Valid() && Agrees(r, Left(), GetString(old(Left()), max))
    {
      var b :- Field(max);
      var _ :- Need(IsUtf8(b));
      r := Ok(b);
    }

    method OptionalString(max: nat) returns (r: Result<Option<Str>>)
      requires Valid()
      modifies this
      ensures Valid() && Agrees(r, Left(), GetOptional(old(Left()), max))
    {
      var flag :- U8();
      if flag == 0 {
        return Ok(None);
      }
      var _ :- Need(flag == 1);
      var s :- String(max);
      r := Ok(Some(s));
    }

    method Auth() returns (r: Result<Option<AuthRequest>>)
      requires Valid()
      modifies this
      ensures Valid() && Agrees(r, Left(), GetAuth(old(Left())))
    {
      var kind :- U8();
      if kind == 0 {
        r := Ok(None);
      } else if kind == 1 {
        r := Ok(Some(Auto));
      } else if kind == 2 {
        r := Ok(Some(Agent));
      } else if kind == 3 {
        var s :- String(MAX_SECRET_BYTES);
        r := Ok(Some(Password(s)));
      } else if kind == 4 {
        var s :- String(MAX_SECRET_BYTES);
        r := Ok(Some(KeyboardInteractive(s)));
      } else if kind == 5 {
        var p :- String(MAX_PATH_BYTES);
        var q :- OptionalString(MAX_SECRET_BYTES);
        r := Ok(Some(PrivateKey(p, q)));
      } else {
        r := Err;
      }
    }

    method ExecBody() returns (r: Result<ClientFrame>)
      requires Valid()
      modifies this
      ensures Valid() && Agrees(r, Left(), GetExec(old(Left())))
    {
      var alias :- String(MAX_ALIAS_BYTES);
      var auth :- Auth();
      var command :- String(MAX_COMMAND_BYTES);
      var asUser :- OptionalString(MAX_ALIAS_BYTES);
      r := Ok(Exec(alias, auth, command, asUser));
    }

    method ShellBody() returns (r: Result<ClientFrame>)
      requires Valid()
      modifies this
      ensures Valid() && Agrees(r, Left(), GetShell(old(Left())))
    {
      var alias :- String(MAX_ALIAS_BYTES);
      var auth :- Auth();
      var term :- String(MAX_TERM_BYTES);
      var columns :- U32();
      var rows :- U32();
      var asUser :- OptionalString(MAX_ALIAS_BYTES);
      r := Ok(Shell(alias, auth, term, columns, rows, asUser));
    }

    method ClientBody(tag: byte) returns (r: Result<ClientFrame>)
      requires Valid()
      modifies this
      ensures Valid() && Agrees(r, Left(), ParseClientBody(tag, old(Left())))
    {
      if tag == 1 {
        r := Ok(Ping);
      } else if tag == 2 {
        r := Ok(Status);
      } else if tag == 3 {
        var alias :- String(MAX_ALIAS_BYTES);
        r := Ok(Disconnect(alias));
      } else if tag == 4 {
        r := ExecBody();
      } else if tag == 5 {
        r := ShellBody();
      } else if tag == 6 {
        var b :- Field(OUTPUT_CHUNK_BYTES);
        r := Ok(Input(b));
      } else if tag == 7 {
        var columns :- U32();
        var rows :- U32();
        r := Ok(Resize(columns, rows));
      } else if tag == 8 {
        r := Ok(Eof);
      } else if tag == 9 {
        r := Ok(Shutdown);
      } else if tag == 10 {
        var auth :- Auth();
        r := Ok(JumpAuthResponse(auth));
      } else {
        r := Err;
      }
    }

    method CountersBody() returns (r: Result<Counters>)
      requires Valid()
      modifies this
      ensures Valid() && Agrees(r, Left(), GetCounters(old(Left())))
    {
      var total :- U64();
      var inUse :- U64();
      var leases :- U64();
      var max :- U64();
      var available :- U64();
      r := Ok(Counters(total, inUse, leases, max, available));
    }

    method ChallengeBody() returns (r: Result<ServerFrame>)
      requires Valid()
      modifies this
      ensures Valid() && Agrees(r, Left(), GetChallenge(old(Left())))
    {
      var index :- U32();
      var total :- U32();
      var attempt :- U32();
      var alias :- String(MAX_ALIAS_BYTES);
      var host :- String(MAX_PATH_BYTES);
      var port :- U16();
      var failed :- Flag();
      r := Ok(JumpAuthChallenge(Challenge(index, total, attempt, alias, host, port, failed)));
    }

    method ExitBody() returns (r: Result<Option<U32>>)
      requires Valid()
      modifies this
      ensures Valid() && Agrees(r, Left(), GetExit(old(Left())))
    {
      var present :- U8();
      if present == 0 {
        return Ok(None);
      }
      var _ :- Need(present == 1);
      var status :- U32();
      r := Ok(Some(status));
    }

    method ServerBody(tag: byte) returns (r: Result<ServerFrame>)
      requires Valid()
      modifies this
      ensures Valid() && Agrees(r, Left(), ParseServerBody(tag, old(Left())))
    {
      if tag == 64 {
        r := Ok(Done);
      } else if tag == 65 {
        var m :- String(MAX_COMMAND_BYTES);
        r := Ok(Error(m));
      } else if tag == 66 {
        r := Ok(AuthRequired);
      } else if tag == 67 {
        var b :- Field(OUTPUT_CHUNK_BYTES);
        r := Ok(Stdout(b));
      } else if tag == 68 {
        var b :- Field(OUTPUT_CHUNK_BYTES);
        r := Ok(Stderr(b));
      } else if tag == 69 {
        var status :- ExitBody();
        r := Ok(Exit(status));
      } else if tag == 70 {
        var c :- CountersBody();
        r := Ok(StatusReport(c));
      } else if tag == 71 {
        var reused :- Flag();
        r := Ok(Cache(reused));
      } else if tag == 72 {
        r := ChallengeBody();
      } else {
        r := Err;
      }
    }
  }

  method DecodeClientFrame(payload: Bytes) returns (r: Result<ClientFrame>)
    ensures r == DecodeClient(payload)
  {
    var cursor := new Cursor(payload);
    var tag :- cursor.U8();
    var f :- cursor.ClientBody(tag);
    var _ :- Need(cursor.offset == |cursor.bytes|);
    r := Ok(f);
  }

  method DecodeServerFrame(payload: Bytes) returns (r: Result<ServerFrame>)
    ensures r == DecodeServer(payload)
  {
    var cursor := new Cursor(payload);
    var tag :- cursor.U8();
    var f :- cursor.ServerBody(tag);
    var _ :- Need(cursor.offset == |cursor.bytes|);
    r := Ok(f);
  }
}
