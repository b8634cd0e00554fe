/**
 * The vocabulary of the websocket transport: close status codes, message
 * types, frame payloads, and the log of effects a connection has on its
 * transport and on its endpoint's callbacks.
 */
module Frames {
  import opened Base

  // Close status codes, section 7.4.1 of RFC 6455.
  const CloseNormalClosure: int := 1000
  const CloseUnsupportedData: int := 1003
  const CloseInternalServerErr: int := 1011

  // Message types, numbered as the frame opcodes of section 5.2 of RFC 6455.
  const TextMessage: int := 1
  const CloseMessage: int := 8
  const PingMessage: int := 9

  /** The body of a control frame: raw bytes, or the status code and reason
      text of a close frame (section 5.5.1 of RFC 6455). */
  datatype Payload = Bytes(data: seq<byte>) | CloseReason(code: int, text: string)

  /** The close-frame body for a status code and a reason text. */
  function FormatCloseMessage(code: int, text: string): Payload
  {
    CloseReason(code, text)
  }

  /** What one write puts on the transport. `Json` holds the JSON text of the
      value handed to the write. */
  datatype Frame =
    | Control(kind: int, payload: Payload)
    | Data(kind: int, data: seq<byte>)
    | Json(value: string)

  function CloseFrame(code: int, text: string): Frame
  {
    Control(CloseMessage, FormatCloseMessage(code, text))
  }

  /** The keepalive probe: a ping control frame with an empty body. */
  const PingFrame: Frame := Control(PingMessage, Bytes([]))

  /** One effect of a connection, in the order it happens. */
  datatype Event =
    | OpenCalled                           // the endpoint's OnOpen was called
    | MessageHandled(text: string)         // the endpoint's OnMessage was called
    | ErrorReported(text: string)          // the endpoint's OnError was called
    | CloseCallback(code: int, text: string) // the endpoint's OnClose was called
    | Sent(frame: Frame)                   // a write reached the transport
    | Released                             // the transport's Close was called
  {
    function Kind(): EventKind
    {
      match this
      case OpenCalled => OpenKind
      case MessageHandled(_) => MessageKind
      case ErrorReported(_) => ErrorKind
      case CloseCallback(_, _) => CloseCallbackKind
      case Sent(_) => SentKind
      case Released => ReleaseKind
    }
  }

  datatype EventKind = OpenKind | MessageKind | ErrorKind | CloseCallbackKind | SentKind | ReleaseKind

  /** How many events of one kind a log holds. */
  function Tally(log: seq<Event>, k: EventKind): nat
  {
    if log == [] then 0
    else (if log[0].Kind() == k then 1 else 0) + Tally(log[1..], k)
  }

  lemma {:induction false} TallyAppend(a: seq<Event>, b: seq<Event>, k: EventKind)
    ensures Tally(a + b, k) == Tally(a, k) + Tally(b, k)
  {
    if a == [] {
      assert a + b == b;
    } else {
      assert (a + b)[0] == a[0];
      assert (a + b)[1..] == a[1..] + b;
      TallyAppend(a[1..], b, k);
    }
  }
}
