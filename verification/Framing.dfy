/** The two nested frames: client payloads under one magic, application messages under another. */
module Framing {
  import opened Identity

  const CLIENT_PAYLOAD_MAGIC: seq<Byte> := [0x4a, 0x51, 0x43, 0x4c, 0x49, 0x45, 0x4e, 0x54]

  const APPLICATION_FRAME_MAGIC: seq<Byte> := [0x4a, 0x51, 0x42, 0x4c, 0x45, 0x41, 0x50, 0x50]

  function EncodeClientPayload(payload: seq<Byte>): seq<Byte> { CLIENT_PAYLOAD_MAGIC + payload }

  function DecodeClientPayload(framed: seq<Byte>): Option<seq<Byte>> {
    if CLIENT_PAYLOAD_MAGIC <= framed then Some(framed[8..]) else None
  }

  /** Decoding accepts exactly what encoding produces. */
  lemma ClientFramingExact(framed: seq<Byte>, payload: seq<Byte>)
    ensures DecodeClientPayload(framed) == Some(payload) <==> framed == EncodeClientPayload(payload)
  {
    if CLIENT_PAYLOAD_MAGIC <= framed { assert framed == framed[..8] + framed[8..]; }
    if framed == EncodeClientPayload(payload) { assert framed[8..] == payload; }
  }

  datatype ApplicationFrame = ApplicationFrame(fromNodeId: NodeId, destinationNodeId: NodeId, payload: seq<Byte>)

  /** [magic 8][source 32][destination 32][payload] */
  function EncodeApplicationFrame(frame: ApplicationFrame): seq<Byte> {
    APPLICATION_FRAME_MAGIC + frame.fromNodeId.bytes + frame.destinationNodeId.bytes + frame.payload
  }

  function DecodeApplicationFrame(bytes: seq<Byte>): Option<ApplicationFrame> {
    if |bytes| < 72 || !(APPLICATION_FRAME_MAGIC <= bytes) then None
    else Some(ApplicationFrame(NodeId(bytes[8..40]), NodeId(bytes[40..72]), bytes[72..]))
  }

  lemma ApplicationFramingExact(bytes: seq<Byte>, frame: ApplicationFrame)
    ensures DecodeApplicationFrame(bytes) == Some(frame) <==> bytes == EncodeApplicationFrame(frame)
  {
    if bytes == EncodeApplicationFrame(frame) {
      assert bytes[8..40] == frame.fromNodeId.bytes;
      assert bytes[40..72] == frame.destinationNodeId.bytes;
      assert bytes[72..] == frame.payload;
    }
    if DecodeApplicationFrame(bytes) == Some(frame) {
      assert bytes == bytes[..8] + bytes[8..40] + bytes[40..72] + bytes[72..];
    }
  }

  /** The encoder as it appends to its buffer. */
  method AppendApplicationFrame(fromNodeId: NodeId, destinationNodeId: NodeId, payload: seq<Byte>)
    returns (framed: seq<Byte>)
    ensures DecodeApplicationFrame(framed) == Some(ApplicationFrame(fromNodeId, destinationNodeId, payload))
    ensures |framed| == 72 + |payload|
  {
    framed := APPLICATION_FRAME_MAGIC;
    framed := framed + fromNodeId.bytes;
    framed := framed + destinationNodeId.bytes;
    framed := framed + payload;
    ApplicationFramingExact(framed, ApplicationFrame(fromNodeId, destinationNodeId, payload));
  }
}
