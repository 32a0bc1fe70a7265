/**
 * The client's inbound frames: one compression-flag byte (0 raw, 1
 * snappy-compressed) followed by the payload, which then deserializes to a
 * server message. Decompression and deserialization are foreign code and
 * are parameters returning `None` on failure.
 */
module ClientFrames {
  import opened Wrappers
  import opened Protocol

  const FLAG_RAW: byte := 0
  const FLAG_COMPRESSED: byte := 1

  /** Why a frame produced no payload. */
  datatype FrameError = EmptyFrame | DecompressionFailed | InvalidFlag(flag: byte)

  /** The flag branch of the receive loop: the payload bytes a frame carries. */
  function DecodeFrame(frame: seq<byte>, decompress: seq<byte> -> Option<seq<byte>>): (r: Result<seq<byte>, FrameError>)
    ensures r == Failure(EmptyFrame) <==> |frame| == 0
    ensures |frame| > 0 && frame[0] == FLAG_RAW ==> r.Success? && r.value == frame[1..] && |r.value| == |frame| - 1
    ensures |frame| > 0 && frame[0] == FLAG_COMPRESSED ==>
      && (r.Success? <==> decompress(frame[1..]).Some?)
      && (r.Success? ==> r.value == decompress(frame[1..]).value)
      && (r.Failure? ==> r.error == DecompressionFailed)
    ensures |frame| > 0 && frame[0] != FLAG_RAW && frame[0] != FLAG_COMPRESSED ==> r == Failure(InvalidFlag(frame[0]))
  {
    if |frame| < 1 then Failure(EmptyFrame)
    else
      var flag := frame[0];
      var payload := frame[1..];
      if flag == FLAG_COMPRESSED then
        match decompress(payload)
        case Some(d) => Success(d)
        case None => Failure(DecompressionFailed)
      else if flag == FLAG_RAW then Success(payload)
      else Failure(InvalidFlag(flag))
  }

  /** The sender's side of an uncompressed frame. */
  function RawFrame(payload: seq<byte>): (frame: seq<byte>)
    ensures |frame| == |payload| + 1 && frame[0] == FLAG_RAW && frame[1..] == payload
  {
    [FLAG_RAW] + payload
  }

  /** The sender's side of a compressed frame. */
  function CompressedFrame(compressed: seq<byte>): (frame: seq<byte>)
    ensures |frame| == |compressed| + 1 && frame[0] == FLAG_COMPRESSED && frame[1..] == compressed
  {
    [FLAG_COMPRESSED] + compressed
  }

  /** An uncompressed frame decodes to its payload, whatever the decompressor. */
  lemma RawRoundTrip(payload: seq<byte>, decompress: seq<byte> -> Option<seq<byte>>)
    ensures DecodeFrame(RawFrame(payload), decompress) == Success(payload)
  {
  }

  /** A compressed frame decodes to what the decompressor makes of its body. */
  lemma CompressedRoundTrip(payload: seq<byte>, compress: seq<byte> -> seq<byte>, decompress: seq<byte> -> Option<seq<byte>>)
    requires decompress(compress(payload)) == Some(payload)
    ensures DecodeFrame(CompressedFrame(compress(payload)), decompress) == Success(payload)
  {
  }

  /** Every frame the decode accepts is one of the two sender shapes. */
  lemma AcceptedFrameShape(frame: seq<byte>, decompress: seq<byte> -> Option<seq<byte>>)
    requires DecodeFrame(frame, decompress).Success?
    ensures frame == RawFrame(frame[1..]) || frame == CompressedFrame(frame[1..])
  {
    assert frame == [frame[0]] + frame[1..];
  }

  /** What one frame hands on to the game: a message, or nothing when a step failed. */
  function Handle<M>(frame: seq<byte>, decompress: seq<byte> -> Option<seq<byte>>, deserialize: seq<byte> -> Option<M>): (m: Option<M>)
    ensures m.Some? <==> DecodeFrame(frame, decompress).Success? && deserialize(DecodeFrame(frame, decompress).value).Some?
  {
    match DecodeFrame(frame, decompress)
    case Failure(_) => None
    case Success(bytes) => deserialize(bytes)
  }

  /** The messages a stream of binary frames delivers: failures skipped, order kept. */
  function Delivered<M>(frames: seq<seq<byte>>, decompress: seq<byte> -> Option<seq<byte>>, deserialize: seq<byte> -> Option<M>): (ms: seq<M>)
    ensures |ms| <= |frames|
    decreases |frames|
  {
    if frames == [] then []
    else
      var rest := Delivered(frames[..|frames| - 1], decompress, deserialize);
      match Handle(frames[|frames| - 1], decompress, deserialize)
      case None => rest
      case Some(m) => rest + [m]
  }

  /** Delivery of two stretches of the stream is the delivery of each, in order. */
  lemma {:induction false} DeliveredAppend<M>(a: seq<seq<byte>>, b: seq<seq<byte>>, decompress: seq<byte> -> Option<seq<byte>>, deserialize: seq<byte> -> Option<M>)
    ensures Delivered(a + b, decompress, deserialize) == Delivered(a, decompress, deserialize) + Delivered(b, decompress, deserialize)
    decreases |b|
  {
    if b == [] {
      assert a + b == a;
    } else {
      var b' := b[..|b| - 1];
      assert (a + b)[..|a + b| - 1] == a + b';
      assert (a + b)[|a + b| - 1] == b[|b| - 1];
      DeliveredAppend(a, b', decompress, deserialize);
      var last := Handle(b[|b| - 1], decompress, deserialize);
      var da, db' := Delivered(a, decompress, deserialize), Delivered(b', decompress, deserialize);
      if last.Some? {
        assert Delivered(b, decompress, deserialize) == db' + [last.value];
        assert Delivered(a + b, decompress, deserialize) == da + db' + [last.value];
        assert da + db' + [last.value] == da + (db' + [last.value]);
      } else {
        assert Delivered(b, decompress, deserialize) == db';
        assert Delivered(a + b, decompress, deserialize) == da + db';
      }
    }
  }

  /** Every frame is delivered exactly when none fails. */
  lemma {:induction false} DeliveredAllIffNoneFails<M>(frames: seq<seq<byte>>, decompress: seq<byte> -> Option<seq<byte>>, deserialize: seq<byte> -> Option<M>)
    ensures |Delivered(frames, decompress, deserialize)| == |frames|
        <==> forall k :: 0 <= k < |frames| ==> Handle(frames[k], decompress, deserialize).Some?
    decreases |frames|
  {
    if frames != [] {
      var pre := frames[..|frames| - 1];
      DeliveredAllIffNoneFails(pre, decompress, deserialize);
      assert forall k :: 0 <= k < |pre| ==> pre[k] == frames[k];
    }
  }

  /**
   * The receive loop over the binary frames of one connection: each frame's
   * handled message is forwarded in arrival order.
   */
  method ReceiveLoop<M>(frames: seq<seq<byte>>, decompress: seq<byte> -> Option<seq<byte>>, deserialize: seq<byte> -> Option<M>)
    returns (handled: seq<M>)
    ensures handled == Delivered(frames, decompress, deserialize)
  {
    handled := [];
    var i := 0;
    while i < |frames|
      invariant 0 <= i <= |frames|
      invariant handled == Delivered(frames[..i], decompress, deserialize)
    {
      var data := frames[i];
      assert frames[..i + 1][..i] == frames[..i];
      if |data| < 1 {
        i := i + 1;
        continue;
      }
      var flag := data[0];
      var payload := data[1..];
      var decompressed: seq<byte>;
      if flag == FLAG_COMPRESSED {
        match decompress(payload) {
          case Some(d) => decompressed := d;
          case None =>
            i := i + 1;
            continue;
        }
      } else if flag == FLAG_RAW {
        decompressed := payload;
      } else {
        i := i + 1;
        continue;
      }
      match deserialize(decompressed) {
        case Some(msg) => handled := handled + [msg];
        case None =>
      }
      i := i + 1;
    }
    assert frames[..i] == frames;
  }
}
