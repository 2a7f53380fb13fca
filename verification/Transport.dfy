/**
 The frame protocol: magic number, length, JSON text.  `ReadOne` says what one read does with
 the bytes a peer has sent before closing; `ReadAll` repeats it until a read ends the session.
 */
module Transport {
  import opened Wrappers
  import opened JsonText
  import opened Errors
  import opened Messages
  import opened MessageHandler

  const HEADER_SIZE: int := 8

  // The first `width` bytes of an unsigned integer, in the byte order both peers share.
  function LE(n: nat, width: nat): (bs: seq<byte>)
    ensures |bs| == width
  {
    if width == 0 then [] else [n % 0x100] + LE(n / 0x100, width - 1)
  }

  function FromLE(bs: seq<byte>): nat {
    if bs == [] then 0 else bs[0] as int + 0x100 * FromLE(bs[1..])
  }

  function Power256(width: nat): nat {
    if width == 0 then 1 else 0x100 * Power256(width - 1)
  }

  lemma {:induction false} LEInverse(n: nat, width: nat)
    requires n < Power256(width)
    ensures FromLE(LE(n, width)) == n
  {
    if width != 0 {
      LEInverse(n / 0x100, width - 1);
    }
  }

  lemma {:induction false} FromLEInverse(bs: seq<byte>)
    ensures LE(FromLE(bs), |bs|) == bs && FromLE(bs) < Power256(|bs|)
  {
    if bs != [] {
      FromLEInverse(bs[1..]);
      assert FromLE(bs) % 0x100 == bs[0] && FromLE(bs) / 0x100 == FromLE(bs[1..]);
    }
  }

  lemma U32Inverse(n: nat)
    requires n < UINT32_LIMIT
    ensures FromLE(LE(n, 4)) == n
  {
    assert Power256(4) == 0x100 * (0x100 * (0x100 * (0x100 * Power256(0))));
    LEInverse(n, 4);
  }

  // What `onAllRead` is told: a message, an error code, or nothing because `at` threw.
  datatype Outcome =
    | Delivered(message: TransportMessage)
    | Failed(code: ErrorCode)
    | Threw

  // The reader stops after such an outcome.
  predicate Ends(o: Outcome) {
    o.Threw? || (o.Failed? && IsCritical(o.code))
  }

  // The whole payload has arrived: parse it and take the two header fields from it.
  function Judge(payload: seq<byte>): Outcome {
    match Parse(BytesText(payload))
    case Err(e) => Failed(Json(e))
    case Ok(v) =>
      var kind, number := At(v, "type"), At(v, "transaction");
      if kind.Some? && kind.value.Str? && number.Some? && number.value.Int64? then
        Delivered(TransportMessage(kind.value.s, TransactionOf(Int32(number.value.i)), payload))
      else Threw
  }

  // The framing below works for any way of judging a payload; `Judge` is the one in use.
  type Codec = seq<byte> -> Outcome

  // One `read`: the outcome and the bytes left for the next one.
  function ReadOne(magic: nat, judge: Codec, bytes: seq<byte>): (r: (Outcome, seq<byte>))
    ensures |r.1| <= |bytes|
    ensures !Ends(r.0) ==> |r.1| <= |bytes| - HEADER_SIZE
  {
    if |bytes| < HEADER_SIZE then (Failed(Eof), [])
    else if FromLE(bytes[..4]) != magic then (Failed(Eof), bytes[HEADER_SIZE..])
    else
      var len := FromLE(bytes[4..HEADER_SIZE]);
      if |bytes| < HEADER_SIZE + len then (Failed(Eof), [])
      else (judge(bytes[HEADER_SIZE..HEADER_SIZE + len]), bytes[HEADER_SIZE + len..])
  }

  function ReadAll(magic: nat, judge: Codec, bytes: seq<byte>): seq<Outcome>
    decreases |bytes|
  {
    var (o, rest) := ReadOne(magic, judge, bytes);
    if Ends(o) then [o] else [o] + ReadAll(magic, judge, rest)
  }

  // One `write`: the length field holds the payload's size modulo 2^32.
  function Frame(magic: nat, payload: seq<byte>): (bs: seq<byte>)
    ensures |bs| == HEADER_SIZE + |payload|
  {
    LE(magic, 4) + LE(|payload| % UINT32_LIMIT, 4) + payload
  }

  function Frames(magic: nat, payloads: seq<seq<byte>>): (bs: seq<byte>)
    ensures payloads != [] ==> HEADER_SIZE <= |bs|
  {
    if payloads == [] then [] else Frame(magic, payloads[0]) + Frames(magic, payloads[1..])
  }

  // ----- what the operating system does -----

  // An error the system reports for one transfer, after moving at most `after` bytes; with
  // `Success` nothing goes wrong.
  datatype Fault = Fault(code: ErrorCode, after: nat)

  // The bytes moved before a transfer of `n` bytes fails: never all of them.
  function Moved(fault: Fault, n: nat, available: nat): (k: nat)
    ensures k <= available && (n > 0 ==> k < n)
  {
    var k := if fault.after < n then fault.after else if n == 0 then 0 else n - 1;
    if k < available then k else available
  }

  // One read under faults of its two stages.  A transfer of no bytes cannot fail.
  function FaultyRead(magic: nat, bytes: seq<byte>, header: Fault, payload: Fault): (r: (Outcome, seq<byte>))
    ensures |r.1| <= |bytes|
  {
    if header.code != Success then (Failed(header.code), bytes[Moved(header, HEADER_SIZE, |bytes|)..])
    else if |bytes| < HEADER_SIZE || FromLE(bytes[..4]) != magic then ReadOne(magic, Judge, bytes)
    else
      var len, rest := FromLE(bytes[4..HEADER_SIZE]), bytes[HEADER_SIZE..];
      if len > 0 && payload.code != Success then (Failed(payload.code), rest[Moved(payload, len, |rest|)..])
      else ReadOne(magic, Judge, bytes)
  }

  // How a write ends, and what it puts on the stream: a closed socket takes nothing.
  function WriteCode(open: bool, fault: Fault): ErrorCode {
    if open then fault.code else BadDescriptor
  }

  function Written(open: bool, fault: Fault, frame: seq<byte>): seq<byte> {
    if !open then []
    else if fault.code == Success then frame
    else frame[..Moved(fault, |frame|, |frame|)]
  }

  // ----- the handler object -----

  class Socket {
    var open: bool
    var inbox: seq<byte>   // sent by the peer and not yet read
    var outbox: seq<byte>  // written here

    constructor ()
      ensures open && inbox == [] && outbox == []
    {
      open, inbox, outbox := true, [], [];
    }

    // `boost::asio::read` of `n` bytes: all of them, or an error when the peer has closed
    // before or the system reports a fault.
    method ReadExactly(n: nat, fault: Fault) returns (buffer: seq<byte>, ec: ErrorCode)
      modifies this`inbox
      ensures ec ==
        if n == 0 then Success
        else if fault.code != Success then fault.code
        else if |old(inbox)| < n then Eof
        else Success
      ensures ec == Success ==> buffer == old(inbox)[..n] && inbox == old(inbox)[n..]
      ensures ec != Success ==>
        inbox == old(inbox)[if fault.code != Success then Moved(fault, n, |old(inbox)|) else |old(inbox)|..]
    {
      buffer := [];
      if n == 0 {
        ec := Success;
      } else if fault.code != Success {
        var k := Moved(fault, n, |inbox|);
        buffer, inbox, ec := inbox[..k], inbox[k..], fault.code;
      } else if |inbox| < n {
        buffer, inbox, ec := inbox, [], Eof;
      } else {
        buffer, inbox, ec := inbox[..n], inbox[n..], Success;
      }
    }
  }

  class TransportHandler {
    const socket: Socket
    var magicNumber: nat

    constructor (socket: Socket, magicNumber: nat)
      ensures this.socket == socket && this.magicNumber == magicNumber
    {
      this.socket, this.magicNumber := socket, magicNumber;
    }

    // The `errorHandler` lambda: does it call `onError`, and does the read stop here?
    method HandleError(ec: ErrorCode) returns (raised: bool, stop: bool)
      ensures raised == IsCritical(ec) && stop == (ec != Success)
    {
      raised := IsCritical(ec);
      stop := ec != Success;
    }

    // `outcome` is what `onAllRead` receives; `raised` tells whether `onError` was called first.
    method ReadSync(headerFault: Fault, payloadFault: Fault) returns (outcome: Outcome, raised: bool)
      modifies socket`inbox
      ensures (outcome, socket.inbox) == FaultyRead(magicNumber, old(socket.inbox), headerFault, payloadFault)
      ensures raised == (outcome.Failed? && IsCritical(outcome.code))
    {
      ghost var bytes := socket.inbox;
      var header, error := socket.ReadExactly(HEADER_SIZE, headerFault);
      var stop;
      raised, stop := HandleError(error);
      if stop {
        return Failed(error), raised;
      }
      var magic, len := FromLE(header[..4]), FromLE(header[4..]);
      assert header[..4] == bytes[..4] && header[4..] == bytes[4..HEADER_SIZE];
      if magic != magicNumber {
        raised, stop := HandleError(Eof);
        return Failed(Eof), raised;
      }
      var payload;
      payload, error := socket.ReadExactly(len, payloadFault);
      raised, stop := HandleError(error);
      if stop {
        return Failed(error), raised;
      }
      assert payload == bytes[HEADER_SIZE..HEADER_SIZE + len];
      assert socket.inbox == bytes[HEADER_SIZE + len..];
      var parsed := Parse(BytesText(payload));
      if parsed.Err? {
        raised, stop := HandleError(Json(parsed.error));
        return Failed(Json(parsed.error)), raised;
      }
      var kind, number := At(parsed.value, "type"), At(parsed.value, "transaction");
      if kind.None? || !kind.value.Str? || number.None? || !number.value.Int64? {
        return Threw, false;
      }
      outcome := Delivered(TransportMessage(kind.value.s, TransactionOf(Int32(number.value.i)), payload));
    }

    // The frame is sent whole, or some of it and then an error.
    method WriteSync(message: TransportMessage, fault: Fault) returns (error: ErrorCode, raised: bool)
      modifies socket`outbox
      ensures error == WriteCode(socket.open, fault) && raised == IsCritical(error)
      ensures socket.outbox ==
        old(socket.outbox) + Written(socket.open, fault, Frame(magicNumber, message.payload))
    {
      var len := |message.payload| % UINT32_LIMIT;
      var buffers := LE(magicNumber, 4) + LE(len, 4) + message.payload;
      error := WriteCode(socket.open, fault);
      if error == Success {
        socket.outbox := socket.outbox + buffers;
      } else if socket.open {
        socket.outbox := socket.outbox + buffers[..Moved(fault, |buffers|, |buffers|)];
      }
      raised := IsCritical(error);
    }
  }
}
