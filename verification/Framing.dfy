/** Length-prefixed payloads on a byte stream: protocol.rs, `read_payload` and `write_payload`. */
module Framing {
  import opened Wrappers
  import opened WireBasics
  import opened Wire

  predicate Legal(payload: Bytes) {
    1 <= |payload| <= 1048576
  }

  predicate AllLegal(payloads: seq<Bytes>) {
    forall i :: 0 <= i < |payloads| ==> Legal(payloads[i])
  }

  /** The bytes on the wire after writing the payloads in order. */
  function StreamOf(payloads: seq<Bytes>): Bytes {
    if payloads == [] then [] else BytesTo(payloads[0], StreamOf(payloads[1..]))
  }

  /** One `read_payload`: a payload, a clean end of the stream, or an error. */
  datatype Reading = Payload(bytes: Bytes, rest: Bytes) | End | Broken

  function ReadPayload(b: Bytes): (r: Reading)
    ensures r.End? <==> b == []
    ensures r.Payload? ==> Legal(r.bytes) && b == BytesTo(r.bytes, r.rest) && |r.rest| < |b|
  {
    if b == [] then End
    else
      var size := GetInt(b, 4);
      if size.Bad? || size.value == 0 || size.value > MAX_FRAME_BYTES || |size.rest| < size.value then Broken
      else
        IntBackward(b, 4);
        var p := size.rest[..size.value];
        var rest := size.rest[size.value..];
        assert size.rest == p + rest;
        Payload(p, rest)
  }

  datatype Transcript = Transcript(payloads: seq<Bytes>, clean: bool)

  /** Every payload until the stream ends or breaks. */
  function ReadAll(b: Bytes): Transcript
    decreases |b|
  {
    match ReadPayload(b)
    case End => Transcript([], true)
    case Broken => Transcript([], false)
    case Payload(p, rest) =>
      var later := ReadAll(rest);
      Transcript([p] + later.payloads, later.clean)
  }

  lemma PayloadIsReadBack(p: Bytes, tail: Bytes)
    requires Legal(p)
    ensures ReadPayload(BytesTo(p, tail)) == Payload(p, tail)
  {
    Widths();
    IntForward(|p|, 4, p + tail);
    TakeAppended(p, tail);
  }

  lemma ReadOneMore(p: Bytes, tail: Bytes)
    requires Legal(p)
    ensures ReadAll(BytesTo(p, tail)) == Transcript([p] + ReadAll(tail).payloads, ReadAll(tail).clean)
  {
    PayloadIsReadBack(p, tail);
  }

  /** Reading a concatenation of framed payloads gives exactly that list, then a clean end. */
  lemma {:induction false} WrittenPayloadsAreReadBack(payloads: seq<Bytes>)
    requires AllLegal(payloads)
    ensures ReadAll(StreamOf(payloads)) == Transcript(payloads, true)
  {
    if payloads != [] {
      ReadOneMore(payloads[0], StreamOf(payloads[1..]));
      WrittenPayloadsAreReadBack(payloads[1..]);
      assert payloads == [payloads[0]] + payloads[1..];
    }
  }

  /** Only a concatenation of framed payloads is read to a clean end. */
  lemma {:induction false} CleanStreamsAreWritten(b: Bytes)
    requires ReadAll(b).clean
    ensures AllLegal(ReadAll(b).payloads) && b == StreamOf(ReadAll(b).payloads)
    decreases |b|
  {
    var r := ReadPayload(b);
    if r.Payload? {
      CleanStreamsAreWritten(r.rest);
      assert ReadAll(b).payloads[1..] == ReadAll(r.rest).payloads;
    }
  }

  /** How many of the payloads lie wholly within the first `n` bytes. */
  function WholeFrames(payloads: seq<Bytes>, n: nat): (k: nat)
    ensures k <= |payloads|
  {
    if payloads == [] || n < 4 + |payloads[0]| then 0 else 1 + WholeFrames(payloads[1..], n - 4 - |payloads[0]|)
  }

  /** `WholeFrames` names the last frame boundary at or before byte `n`. */
  lemma {:induction false} WholeFramesIsTheLastBoundary(payloads: seq<Bytes>, n: nat)
    ensures var k := WholeFrames(payloads, n);
            && |StreamOf(payloads[..k])| <= n
            && (k < |payloads| ==> n < |StreamOf(payloads[..k + 1])|)
  {
    if payloads == [] {
    } else if n < 4 + |payloads[0]| {
      assert payloads[..1][0] == payloads[0];
    } else {
      var k := WholeFrames(payloads, n);
      WholeFramesIsTheLastBoundary(payloads[1..], n - 4 - |payloads[0]|);
      assert payloads[..k][1..] == payloads[1..][..k - 1];
      if k < |payloads| {
        assert payloads[..k + 1][1..] == payloads[1..][..k];
      }
    }
  }

  lemma ShortPayloadIsBroken(p: Bytes, tail: Bytes, n: nat)
    requires Legal(p) && 0 < n < 4 + |p|
    ensures n <= |BytesTo(p, tail)| && ReadPayload(BytesTo(p, tail)[..n]) == Broken
  {
    Widths();
    var b := BytesTo(p, tail);
    if n >= 4 {
      FromToBigEndian(|p|, 4);
      assert b[..n][..4] == BigEndian(|p|, 4);
    }
  }

  lemma CutAfterFrame(p: Bytes, tail: Bytes, n: nat)
    requires 4 + |p| <= n <= |BytesTo(p, tail)|
    ensures n - 4 - |p| <= |tail| && BytesTo(p, tail)[..n] == BytesTo(p, tail[..n - 4 - |p|])
  {
    var m := n - 4 - |p|;
    var size := BigEndian(|p|, 4);
    assert p + tail[..m] == (p + tail)[..|p| + m];
    assert (size + (p + tail))[..n] == size + (p + tail)[..|p| + m];
  }

  lemma FramesSplit(payloads: seq<Bytes>, k: nat)
    requires 0 < k <= |payloads|
    ensures payloads[..k] == [payloads[0]] + payloads[1..][..k - 1]
    ensures |StreamOf(payloads[..k])| == 4 + |payloads[0]| + |StreamOf(payloads[1..][..k - 1])|
  {
    assert payloads[..k][1..] == payloads[1..][..k - 1];
  }

  /**
   * Cutting a stream after `n` bytes yields the payloads that lie wholly before the cut,
   * and the end is clean exactly when the cut is at a frame boundary.
   */
  lemma {:induction false} TruncationIsNoticed(payloads: seq<Bytes>, n: nat)
    requires AllLegal(payloads) && n <= |StreamOf(payloads)|
    ensures var k := WholeFrames(payloads, n);
            ReadAll(StreamOf(payloads)[..n]) == Transcript(payloads[..k], n == |StreamOf(payloads[..k])|)
  {
    if payloads != [] {
      var p, tail := payloads[0], StreamOf(payloads[1..]);
      if n < 4 + |p| {
        if n > 0 {
          ShortPayloadIsBroken(p, tail, n);
        }
      } else {
        var k := WholeFrames(payloads, n);
        CutAfterFrame(p, tail, n);
        var m := n - 4 - |p|;
        ReadOneMore(p, tail[..m]);
        TruncationIsNoticed(payloads[1..], m);
        FramesSplit(payloads, k);
      }
    }
  }

  // ---------- Frames over the stream ----------

  ghost predicate AllClientFit(frames: seq<ClientFrame>) {
    forall i :: 0 <= i < |frames| ==> ClientFits(frames[i])
  }

  ghost function ClientStream(frames: seq<ClientFrame>): Bytes
    requires AllClientFit(frames)
  {
    if frames == [] then [] else BytesTo(ClientTo(frames[0], []), ClientStream(frames[1..]))
  }

  /** `read_client_frame` until the clean end; `None` if any read fails. */
  function ReadClientFrames(b: Bytes): Option<seq<ClientFrame>>
    decreases |b|
  {
    match ReadPayload(b)
    case End => Some([])
    case Broken => None
    case Payload(p, rest) =>
      var frame := DecodeClient(p);
      var later := ReadClientFrames(rest);
      if frame.Ok? && later.Some? then Some([frame.value] + later.value) else None
  }

  lemma ReadOneClientFrame(f: ClientFrame, tail: Bytes)
    requires ClientFits(f)
    ensures ReadClientFrames(BytesTo(ClientTo(f, []), tail))
         == if ReadClientFrames(tail).Some? then Some([f] + ReadClientFrames(tail).value) else None
  {
    var p := ClientTo(f, []);
    ClientFrameFits(f);
    PayloadIsReadBack(p, tail);
    ClientCodecIsInverse(f, p);
  }

  /** The byte streams read as a list of client frames are exactly those written from that list. */
  lemma {:induction false} ClientStreamsAreInverse(frames: seq<ClientFrame>)
    requires AllClientFit(frames)
    ensures ReadClientFrames(ClientStream(frames)) == Some(frames)
  {
    if frames != [] {
      ReadOneClientFrame(frames[0], ClientStream(frames[1..]));
      ClientStreamsAreInverse(frames[1..]);
      assert frames == [frames[0]] + frames[1..];
    }
  }

  lemma {:induction false} ReadClientFramesWereWritten(b: Bytes)
    requires ReadClientFrames(b).Some?
    ensures AllClientFit(ReadClientFrames(b).value) && b == ClientStream(ReadClientFrames(b).value)
    decreases |b|
  {
    var r := ReadPayload(b);
    if r.Payload? {
      var frames := ReadClientFrames(b).value;
      ReadClientFramesWereWritten(r.rest);
      assert frames[1..] == ReadClientFrames(r.rest).value;
      ClientCodecIsInverse(frames[0], r.bytes);
      forall i | 0 <= i < |frames| ensures ClientFits(frames[i]) {
        if i > 0 {
          assert frames[i] == frames[1..][i - 1];
        }
      }
    }
  }

  ghost predicate AllServerFit(frames: seq<ServerFrame>) {
    forall i :: 0 <= i < |frames| ==> ServerFits(frames[i])
  }

  ghost function ServerStream(frames: seq<ServerFrame>): Bytes
    requires AllServerFit(frames)
  {
    if frames == [] then [] else BytesTo(ServerTo(frames[0], []), ServerStream(frames[1..]))
  }

  /** `read_server_frame` until the clean end; `None` if any read fails. */
  function ReadServerFrames(b: Bytes): Option<seq<ServerFrame>>
    decreases |b|
  {
    match ReadPayload(b)
    case End => Some([])
    case Broken => None
    case Payload(p, rest) =>
      var frame := DecodeServer(p);
      var later := ReadServerFrames(rest);
      if frame.Ok? && later.Some? then Some([frame.value] + later.value) else None
  }

  lemma ReadOneServerFrame(f: ServerFrame, tail: Bytes)
    requires ServerFits(f)
    ensures ReadServerFrames(BytesTo(ServerTo(f, []), tail))
         == if ReadServerFrames(tail).Some? then Some([f] + ReadServerFrames(tail).value) else None
  {
    var p := ServerTo(f, []);
    ServerFrameFits(f);
    PayloadIsReadBack(p, tail);
    ServerCodecIsInverse(f, p);
  }

  /** The byte streams read as a list of server frames are exactly those written from that list. */
  lemma {:induction false} ServerStreamsAreInverse(frames: seq<ServerFrame>)
    requires AllServerFit(frames)
    ensures ReadServerFrames(ServerStream(frames)) == Some(frames)
  {
    if frames != [] {
      ReadOneServerFrame(frames[0], ServerStream(frames[1..]));
      ServerStreamsAreInverse(frames[1..]);
      assert frames == [frames[0]] + frames[1..];
    }
  }

  lemma {:induction false} ReadServerFramesWereWritten(b: Bytes)
    requires ReadServerFrames(b).Some?
    ensures AllServerFit(ReadServerFrames(b).value) && b == ServerStream(ReadServerFrames(b).value)
    decreases |b|
  {
    var r := ReadPayload(b);
    if r.Payload? {
      var frames := ReadServerFrames(b).value;
      ReadServerFramesWereWritten(r.rest);
      assert frames[1..] == ReadServerFrames(r.rest).value;
      ServerCodecIsInverse(frames[0], r.bytes);
      forall i | 0 <= i < |frames| ensures ServerFits(frames[i]) {
        if i > 0 {
          assert frames[i] == frames[1..][i - 1];
        }
      }
    }
  }

  /** One direction of the connection. */
  class Stream {
    var bytes: Bytes

    /** `read_exact`: takes what it can and fails when the stream ends early. */
    method ReadExact(n: nat) returns (r: Result<Bytes>)
      modifies this
      ensures |old(bytes)| >= n ==> r == Ok(old(bytes)[..n]) && bytes == old(bytes)[n..]
      ensures |old(bytes)| < n ==> r.Err? && bytes == []
    {
      if |bytes| < n {
        bytes := [];
        return Err;
      }
      r := Ok(bytes[..n]);
      bytes := bytes[n..];
    }

    method ReadOne() returns (r: Result<Option<Bytes>>)
      modifies this
      ensures match ReadPayload(old(bytes))
              case Payload(p, rest) => r == Ok(Some(p)) && bytes == rest
              case End => r == Ok(None) && bytes == []
              case Broken => r.Err?
    {
      ghost var before := bytes;
      var first := ReadExact(1);
      if first.Err? {
        return Ok(None);
      }
      var more :- ReadExact(3);
      assert first.value + more == before[..4];
      var length := FromBigEndian(first.value + more);
      assert GetInt(before, 4) == Got(length, bytes);
      if length == 0 || length > MAX_FRAME_BYTES {
        return Err;
      }
      var payload :- ReadExact(length);
      r := Ok(Some(payload));
    }

    method WriteOne(payload: Bytes) returns (r: Result<()>)
      modifies this
      ensures r.Ok? <==> Legal(payload)
      ensures r.Ok? ==> bytes == old(bytes) + StreamOf([payload])
      ensures r.Err? ==> bytes == old(bytes)
    {
      if |payload| == 0 || |payload| > MAX_FRAME_BYTES {
        return Err;
      }
      bytes := bytes + BigEndian(|payload|, 4);
      bytes := bytes + payload;
      assert payload + StreamOf([]) == payload;
      r := Ok(());
    }
  }
}
