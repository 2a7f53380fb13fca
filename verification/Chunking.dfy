/**
 The asynchronous read: two stages, header then payload, fed by whatever pieces the
 network delivers, with the next read started from the callback of the last.
 */
module Chunking {
  import opened Wrappers
  import opened Errors
  import opened Messages
  import opened Transport
  import opened Stream

  datatype Receiver =
    | Header(got: seq<byte>)
    | Payload(len: nat, got: seq<byte>)
    | Ended

  predicate Valid(rx: Receiver) {
    match rx
    case Header(got) => |got| < HEADER_SIZE
    case Payload(len, got) => |got| <= len < UINT32_LIMIT
    case Ended => true
  }

  lemma LengthFits(field: seq<byte>)
    requires |field| == 4
    ensures FromLE(field) < UINT32_LIMIT && LE(FromLE(field), 4) == field
  {
    FromLEInverse(field);
    assert Power256(4) == 0x100 * (0x100 * (0x100 * (0x100 * Power256(0))));
  }

  // A piece arrives; each stage takes the bytes it still needs and leaves the rest.
  function Arrive(magic: nat, judge: Codec, rx: Receiver, chunk: seq<byte>): (r: (seq<Outcome>, Receiver))
    requires Valid(rx)
    ensures Valid(r.1)
    ensures r.1.Payload? ==> |r.1.got| < r.1.len
    decreases |chunk|, if rx.Payload? then 1 else 0
  {
    match rx
    case Ended => ([], Ended)
    case Header(got) =>
      if |got| + |chunk| < HEADER_SIZE then ([], Header(got + chunk))
      else
        var header := got + chunk[..HEADER_SIZE - |got|];
        if FromLE(header[..4]) != magic then ([Failed(Eof)], Ended)
        else
          LengthFits(header[4..]);
          Arrive(magic, judge, Payload(FromLE(header[4..]), []), chunk[HEADER_SIZE - |got|..])
    case Payload(len, got) =>
      if |got| + |chunk| < len then ([], Payload(len, got + chunk))
      else
        var o := judge(got + chunk[..len - |got|]);
        if Ends(o) then ([o], Ended)
        else
          var (os, rx') := Arrive(magic, judge, Header([]), chunk[len - |got|..]);
          ([o] + os, rx')
  }

  // All pieces, and then the peer closes.
  function ReadPieces(magic: nat, judge: Codec, rx: Receiver, chunks: seq<seq<byte>>): seq<Outcome>
    requires Valid(rx)
    decreases chunks
  {
    if chunks == [] then
      if rx.Ended? then [] else [Failed(Eof)]
    else
      var (os, rx') := Arrive(magic, judge, rx, chunks[0]);
      os + ReadPieces(magic, judge, rx', chunks[1..])
  }

  function Concat(chunks: seq<seq<byte>>): seq<byte> {
    if chunks == [] then [] else chunks[0] + Concat(chunks[1..])
  }

  // The bytes of the current frame that have arrived.
  function Buffered(magic: nat, rx: Receiver): seq<byte> {
    match rx
    case Header(got) => got
    case Payload(len, got) => LE(magic, 4) + LE(len, 4) + got
    case Ended => []
  }

  // What the synchronous reads would report of the bytes still to come.
  function Rest(magic: nat, judge: Codec, rx: Receiver, more: seq<byte>): seq<Outcome> {
    if rx.Ended? then [] else ReadAll(magic, judge, Buffered(magic, rx) + more)
  }

  lemma HeaderIsTaken(magic: nat, judge: Codec, got: seq<byte>, chunk: seq<byte>, more: seq<byte>)
    requires |got| < HEADER_SIZE <= |got| + |chunk|
    ensures var header := got + chunk[..HEADER_SIZE - |got|];
      var rest := chunk[HEADER_SIZE - |got|..] + more;
      (FromLE(header[..4]) != magic ==> ReadAll(magic, judge, got + (chunk + more)) == [Failed(Eof)]) &&
      (FromLE(header[..4]) == magic ==>
        got + (chunk + more) == Buffered(magic, Payload(FromLE(header[4..]), [])) + rest)
  {
    var header, rest := got + chunk[..HEADER_SIZE - |got|], chunk[HEADER_SIZE - |got|..];
    var bytes := got + (chunk + more);
    assert bytes == header + (rest + more);
    assert bytes[..4] == header[..4];
    FromLEInverse(header[..4]);
    LengthFits(header[4..]);
    assert header == header[..4] + header[4..] + [];
  }

  lemma PayloadIsTaken(magic: nat, judge: Codec, len: nat, got: seq<byte>, chunk: seq<byte>, more: seq<byte>)
    requires magic < UINT32_LIMIT && |got| <= len < UINT32_LIMIT && len <= |got| + |chunk|
    ensures ReadOne(magic, judge, Buffered(magic, Payload(len, got)) + (chunk + more)) ==
      (judge(got + chunk[..len - |got|]), chunk[len - |got|..] + more)
  {
    var payload, rest := got + chunk[..len - |got|], chunk[len - |got|..];
    var start := LE(magic, 4) + LE(len, 4);
    assert len % UINT32_LIMIT == len && Frame(magic, payload) == start + payload;
    Assoc(start, got, chunk + more);
    assert got + (chunk + more) == payload + (rest + more);
    Assoc(start, payload, rest + more);
    WholeFrameIsRead(magic, judge, payload, rest + more);
  }

  lemma ReadAllStep(magic: nat, judge: Codec, bytes: seq<byte>)
    ensures var (o, rest) := ReadOne(magic, judge, bytes);
      ReadAll(magic, judge, bytes) == [o] + if Ends(o) then [] else ReadAll(magic, judge, rest)
  {}

  // Part of a header, then a piece.
  lemma {:induction false} HeaderArrives(magic: nat, judge: Codec, got: seq<byte>, chunk: seq<byte>, more: seq<byte>)
    requires magic < UINT32_LIMIT && |got| < HEADER_SIZE
    ensures var (os, rx) := Arrive(magic, judge, Header(got), chunk);
      ReadAll(magic, judge, got + (chunk + more)) == os + Rest(magic, judge, rx, more)
    decreases |chunk|, 0
  {
    if |got| + |chunk| < HEADER_SIZE {
      Assoc(got, chunk, more);
    } else {
      HeaderIsTaken(magic, judge, got, chunk, more);
      var header := got + chunk[..HEADER_SIZE - |got|];
      if FromLE(header[..4]) == magic {
        LengthFits(header[4..]);
        PayloadArrives(magic, judge, FromLE(header[4..]), [], chunk[HEADER_SIZE - |got|..], more);
      }
    }
  }

  // Part of a payload, then a piece.
  lemma {:induction false} PayloadArrives(
    magic: nat, judge: Codec, len: nat, got: seq<byte>, chunk: seq<byte>, more: seq<byte>)
    requires magic < UINT32_LIMIT && |got| <= len < UINT32_LIMIT
    ensures var (os, rx) := Arrive(magic, judge, Payload(len, got), chunk);
      ReadAll(magic, judge, Buffered(magic, Payload(len, got)) + (chunk + more)) == os + Rest(magic, judge, rx, more)
    decreases |chunk|, 1
  {
    if |got| + |chunk| < len {
      var start := LE(magic, 4) + LE(len, 4);
      Assoc(start, got, chunk);
      Assoc(start + got, chunk, more);
    } else {
      PayloadIsTaken(magic, judge, len, got, chunk, more);
      var o, rest := judge(got + chunk[..len - |got|]), chunk[len - |got|..];
      ReadAllStep(magic, judge, Buffered(magic, Payload(len, got)) + (chunk + more));
      if !Ends(o) {
        HeaderArrives(magic, judge, [], rest, more);
        assert [] + (rest + more) == rest + more;
        var (os, rx) := Arrive(magic, judge, Header([]), rest);
        Assoc([o], os, Rest(magic, judge, rx, more));
      }
    }
  }

  // What one piece makes the callbacks report, and the bytes it leaves buffered, together
  // account for the synchronous reads of everything.
  lemma ArriveIsRead(magic: nat, judge: Codec, rx: Receiver, chunk: seq<byte>, more: seq<byte>)
    requires magic < UINT32_LIMIT && Valid(rx)
    ensures var (os, rx') := Arrive(magic, judge, rx, chunk);
      Rest(magic, judge, rx, chunk + more) == os + Rest(magic, judge, rx', more)
  {
    match rx
    case Ended =>
    case Header(got) => HeaderArrives(magic, judge, got, chunk, more);
    case Payload(len, got) => PayloadArrives(magic, judge, len, got, chunk, more);
  }

  lemma {:induction false} PiecesAreRead(magic: nat, judge: Codec, rx: Receiver, chunks: seq<seq<byte>>)
    requires magic < UINT32_LIMIT && Valid(rx) && (rx.Payload? ==> |rx.got| < rx.len)
    ensures ReadPieces(magic, judge, rx, chunks) == Rest(magic, judge, rx, Concat(chunks))
    decreases chunks
  {
    if chunks == [] {
      assert Buffered(magic, rx) + [] == Buffered(magic, rx);
      if rx.Payload? {
        var start := LE(magic, 4) + LE(rx.len, 4);
        U32Inverse(rx.len);
        assert (start + rx.got)[4..HEADER_SIZE] == LE(rx.len, 4);
      }
      if !rx.Ended? {
        ShortIsLost(magic, judge, Buffered(magic, rx));
      }
    } else {
      ArriveIsRead(magic, judge, rx, chunks[0], Concat(chunks[1..]));
      PiecesAreRead(magic, judge, Arrive(magic, judge, rx, chunks[0]).1, chunks[1..]);
    }
  }

  // However the network cuts the bytes, the asynchronous reads report what the synchronous
  // reads report of the whole.
  lemma AsyncAgreesWithSync(magic: nat, judge: Codec, chunks: seq<seq<byte>>)
    requires magic < UINT32_LIMIT
    ensures ReadPieces(magic, judge, Header([]), chunks) == ReadAll(magic, judge, Concat(chunks))
  {
    PiecesAreRead(magic, judge, Header([]), chunks);
    assert [] + Concat(chunks) == Concat(chunks);
  }
}
