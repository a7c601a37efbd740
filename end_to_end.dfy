/**
  The two halves of the library together: a message serialized by `serialize_message`, sent
  by `write_uart_frame`, cut out of the byte stream again by `extract_frames` and given to
  `deserialize_message` is the message that was sent.
*/
module EndToEnd {
  import opened Wrappers
  import opened Bytes
  import opened Messages
  import opened MessageProperties
  import opened MessageFactory
  import opened UartFrames

  /** A serialized message is a well-formed frame: its first byte counts the bytes after the opcode. */
  lemma SerializedIsFrame(m: Message)
    requires WellFormed(m)
    ensures SerializeMessage(m).Success?
    ensures ValidFrame(SerializeMessage(m).value)
  {
    RoundTrip(m, [], []);
    SerializeMessageWritten(m);
  }

  /** A message on the wire comes back as one frame, with nothing left over, and decodes to itself. */
  lemma MessageOverTheWire(m: Message)
    requires WellFormed(m)
    ensures SerializeMessage(m).Success?
    ensures ExtractFrames(WireFrame(SerializeMessage(m).value)) == ([SerializeMessage(m).value], [])
    ensures DeserializeMessage(SerializeMessage(m).value) == Success(m)
  {
    SerializedIsFrame(m);
    var b := SerializeMessage(m).value;
    ExtractOneFrame(b);
    FactoryRoundTrip(m, []);
    assert b + [] == b;
  }
}
