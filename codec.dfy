/** The two frame formats of the command/data characteristics:
    outgoing `[kind, tag, payload clamped to 64 bytes]` (sendPacket) and
    incoming `[command, payload...]` (handleIncomingCommand). */
module Codec {
  import opened Platform

  const MAX_PAYLOAD: nat := 64

  /** Response kinds (the `Responses` enum). */
  const COMMAND_RESULT: byte := 1
  const DATA: byte := 2
  const ERROR: byte := 3

  /** sendPacket's `len<64? len:64`: the payload bytes that are kept. */
  function ClampedLength(len: nat): (n: nat)
    ensures n <= MAX_PAYLOAD && n <= len
    ensures n == len || n == MAX_PAYLOAD
  {
    if len < MAX_PAYLOAD then len else MAX_PAYLOAD
  }

  /** The frame sendPacket puts on the data characteristic. */
  function Frame(kind: byte, tag: byte, payload: seq<byte>): (f: seq<byte>)
    ensures |f| == ClampedLength(|payload|) + 2
    ensures f[0] == kind && f[1] == tag
    ensures forall i | 0 <= i < ClampedLength(|payload|) :: f[i + 2] == payload[i]
  {
    [kind, tag] + payload[..ClampedLength(|payload|)]
  }

  /** The bytes after the kind and the tag. */
  function FramePayload(f: seq<byte>): seq<byte>
    requires |f| >= 2
  {
    f[2..]
  }

  /** A payload of at most 64 bytes travels intact. */
  lemma ShortPayloadRoundTrip(kind: byte, tag: byte, payload: seq<byte>)
    requires |payload| <= MAX_PAYLOAD
    ensures |Frame(kind, tag, payload)| == |payload| + 2
    ensures FramePayload(Frame(kind, tag, payload)) == payload
  {
    assert payload[..|payload|] == payload;
  }

  /** A longer payload is silently cut to its first 64 bytes. */
  lemma LongPayloadTruncated(kind: byte, tag: byte, payload: seq<byte>)
    requires |payload| > MAX_PAYLOAD
    ensures |Frame(kind, tag, payload)| == MAX_PAYLOAD + 2
    ensures Frame(kind, tag, payload) == Frame(kind, tag, payload[..MAX_PAYLOAD])
    ensures FramePayload(Frame(kind, tag, payload)) == payload[..MAX_PAYLOAD]
  {
  }

  /** A decoded inbound command frame. */
  datatype Command = Command(id: byte, payload: seq<byte>)

  function Encode(c: Command): seq<byte> {
    [c.id] + c.payload
  }

  /** handleIncomingCommand's split into the command byte and the rest;
      an empty frame carries no command (see the findings in README). */
  function SplitCommand(frame: seq<byte>): (r: Option<Command>)
    ensures r.None? <==> frame == []
    ensures r.Some? ==> Encode(r.value) == frame
  {
    if frame == [] then None else Some(Command(frame[0], frame[1..]))
  }

  lemma SplitEncodeRoundTrip(c: Command)
    ensures SplitCommand(Encode(c)) == Some(c)
  {
    assert Encode(c)[1..] == c.payload;
  }

  /** What lines 178-180 compute, read literally: whether `commandData[0]`
      is inside the array, whether `pData` points at a payload, and the
      uint16 `dataLen = size() - 1`. */
  datatype RawSplit = RawSplit(commandInBounds: bool, payloadPointer: bool, dataLen: nat)

  function SplitCommandAsWritten(frame: seq<byte>): (r: RawSplit)
    ensures r.dataLen < 0x1_0000
  {
    RawSplit(|frame| > 0, |frame| > 1, (|frame| - 1) % 0x1_0000)
  }

  /** On an empty frame the source reads past the end of the array and
      announces 65535 payload bytes behind a null pointer. */
  lemma EmptyFrameAsWritten()
    ensures SplitCommandAsWritten([]) == RawSplit(false, false, 0xFFFF)
  {
  }

  /** On every non-empty frame the literal reading agrees with SplitCommand. */
  lemma SplitCommandAgreesAsWritten(frame: seq<byte>)
    requires 0 < |frame| <= 0x1_0000
    ensures SplitCommandAsWritten(frame).commandInBounds
    ensures SplitCommandAsWritten(frame).dataLen == |SplitCommand(frame).value.payload|
    ensures SplitCommandAsWritten(frame).payloadPointer <==> SplitCommand(frame).value.payload != []
  {
  }
}
