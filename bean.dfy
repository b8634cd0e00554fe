/**
 * The connection object and the endpoint registration table of the
 * websocket starter (websocket/bean.go).
 *
 * A connection drives its endpoint's callbacks and its transport; the model
 * records both as one event log. What the callbacks and the transport answer
 * is supplied as input.
 */
module Bean {
  import opened Base
  import opened Frames

  /** An endpoint template, reduced to what registration inspects: whether the
      value is a pointer, and the path its GetEndpointPath returns. `name`
      tells two templates apart. Its callbacks are modelled by their results. */
  datatype Endpoint = Endpoint(name: string, isPointer: bool, path: string)

  /** A handler of the host framework's route chain. */
  datatype Handler =
    | UpgradeHandler                // the upgrade check that leads every chain
    | Middleware(name: string)      // a handler supplied at registration
    | EndpointHandler(entry: Entry) // the per-connection handler for one entry

  /** One row of the registration table: a template and its middlewares, in
      the order they were given. */
  datatype Entry = Entry(endpoint: Endpoint, middlewares: seq<Handler>)

  /** Why a registration is refused; the source panics with `Message()`. */
  datatype RegisterError = NotAPointer | PathRepeat(path: string)
  {
    function Message(): string
    {
      match this
      case NotAPointer => "websocket endpoint must be a pointer"
      case PathRepeat(p) => "endpoint path repeat: " + p
    }
  }

  /** The panic texts tell the two refusals apart, and a repeated-path panic
      names the path it refused. */
  lemma PanicNamesPath(a: RegisterError, b: RegisterError)
    ensures a.Message() == b.Message() <==> a == b
  {
    // The two texts already differ in their first character.
    assert NotAPointer.Message()[0] == 'w';
    assert a.PathRepeat? ==> a.Message()[0] == 'e';
    assert b.PathRepeat? ==> b.Message()[0] == 'e';
    if a.Message() == b.Message() {
      var prefix := "endpoint path repeat: ";
      if a.PathRepeat? && b.PathRepeat? {
        assert a.path == a.Message()[|prefix|..];
      }
    }
  }

  /** The path-keyed registration table, filled before the server starts. */
  class EndpointTable {
    var entries: map<string, Entry>

    constructor ()
      ensures entries == map[]
    {
      entries := map[];
    }

    /** Adds a template under its path. A template that is not a pointer is
        refused before its path is looked at; a path already present is
        refused and the first registration stays. */
    method Register(endpoint: Endpoint, middlewares: seq<Handler>) returns (r: Outcome<RegisterError>)
      modifies this
      ensures !endpoint.isPointer ==> r == Fail(NotAPointer) && entries == old(entries)
      ensures endpoint.isPointer && endpoint.path in old(entries) ==>
                r == Fail(PathRepeat(endpoint.path)) && entries == old(entries)
      ensures endpoint.isPointer && endpoint.path !in old(entries) ==>
                r == Pass && entries == old(entries)[endpoint.path := Entry(endpoint, middlewares)]
    {
      if !endpoint.isPointer {
        return Fail(NotAPointer);
      }
      var path := endpoint.path;
      if path in entries {
        return Fail(PathRepeat(path));
      }
      entries := entries[path := Entry(endpoint, middlewares)];
      r := Pass;
    }
  }

  /** The execution context bound to a connection (always the background context). */
  datatype Context = Background

  /** One result of reading the transport: a message together with what the
      endpoint's OnMessage answers for it, a close frame from the peer (which
      the transport hands to the endpoint's OnClose, installed as its close
      handler, before the read fails), or any other read error. */
  datatype Incoming =
    | Received(text: string, reply: Option<Error>)
    | PeerClosed(code: int, text: string)
    | ReadFailed(err: Error)

  /** A message that OnMessage accepts, so that the read loop goes on. */
  predicate Accepted(m: Incoming)
  {
    m.Received? && m.reply.None?
  }

  /** What an error in OnOpen or OnMessage does before the connection is
      released: report it, send a close frame with "unsupported data" and its
      text, and tell the endpoint the connection closed for that reason. */
  function Rejection(e: Error): seq<Event>
  {
    [ErrorReported(e.text),
     Sent(CloseFrame(CloseUnsupportedData, e.text)),
     CloseCallback(CloseUnsupportedData, e.text)]
  }

  /** What Interrupt does to a connection that is still open. */
  function InterruptEvents(err: Option<Error>): seq<Event>
  {
    match err
    case Some(e) => [ErrorReported(e.text), Sent(CloseFrame(CloseInternalServerErr, e.text)), Released]
    case None => [Sent(CloseFrame(CloseNormalClosure, "")), Released]
  }

  /** What the read loop does with the results of successive reads, before
      its deferred close. Running out of results counts as a read error. The
      loop itself never releases the transport. */
  function ListenEvents(incoming: seq<Incoming>): (r: seq<Event>)
    ensures forall j :: 0 <= j < |r| ==> r[j] != Released
  {
    if incoming == [] then []
    else match incoming[0]
      case ReadFailed(_) => []
      case PeerClosed(code, text) => [CloseCallback(code, text)]
      case Received(text, None) => [MessageHandled(text)] + ListenEvents(incoming[1..])
      case Received(text, Some(e)) => [MessageHandled(text)] + Rejection(e)
  }

  /** The position of the read that ends the read loop (|incoming| if none does). */
  function StopIndex(incoming: seq<Incoming>): (k: nat)
    ensures k <= |incoming|
    ensures forall j :: 0 <= j < k ==> Accepted(incoming[j])
    ensures k < |incoming| ==> !Accepted(incoming[k])
  {
    if incoming == [] || !Accepted(incoming[0]) then 0 else 1 + StopIndex(incoming[1..])
  }

  /** Whether the read loop ends because OnMessage returned an error. */
  predicate Rejected(incoming: seq<Incoming>)
  {
    StopIndex(incoming) < |incoming| && incoming[StopIndex(incoming)].Received?
  }

  /** Whether the read loop ends because the peer sent a close frame. */
  predicate ClosedByPeer(incoming: seq<Incoming>)
  {
    StopIndex(incoming) < |incoming| && incoming[StopIndex(incoming)].PeerClosed?
  }

  /** One OnMessage call per message, in order. */
  function Deliveries(msgs: seq<Incoming>): (r: seq<Event>)
    requires forall j :: 0 <= j < |msgs| ==> msgs[j].Received?
  {
    seq(|msgs|, j requires 0 <= j < |msgs| => MessageHandled(msgs[j].text))
  }

  /** What the read that stops the loop causes: the rejection of a message
      OnMessage refused, the OnClose call of a peer's close frame, or nothing
      for any other read error. */
  function StopTail(incoming: seq<Incoming>): seq<Event>
  {
    var k := StopIndex(incoming);
    if Rejected(incoming)
    then [MessageHandled(incoming[k].text)] + Rejection(incoming[k].reply.value)
    else if ClosedByPeer(incoming)
    then [CloseCallback(incoming[k].code, incoming[k].text)]
    else []
  }

  /** The read loop calls OnMessage once for every message up to the one that
      stops it, in arrival order, and then does only what that read causes. */
  lemma {:induction false} ListenShape(incoming: seq<Incoming>)
    ensures ListenEvents(incoming) == Deliveries(incoming[..StopIndex(incoming)]) + StopTail(incoming)
  {
    if incoming != [] && Accepted(incoming[0]) {
      var rest := incoming[1..];
      ListenShape(rest);
      StopAfterAccepted(incoming);
      DeliveriesCons(incoming[0], rest[..StopIndex(rest)]);
    } else if incoming != [] {
      assert StopIndex(incoming) == 0 && incoming[..0] == [];
      match incoming[0]
      case ReadFailed(_) =>
        assert StopTail(incoming) == [];
      case PeerClosed(code, text) =>
        assert StopTail(incoming) == [CloseCallback(code, text)];
      case Received(text, reply) =>
        assert StopTail(incoming) == [MessageHandled(text)] + Rejection(reply.value);
    }
  }

  /** An accepted first message moves the stopping read one place on and
      leaves what it causes unchanged. */
  lemma StopAfterAccepted(incoming: seq<Incoming>)
    requires incoming != [] && Accepted(incoming[0])
    ensures StopIndex(incoming) == 1 + StopIndex(incoming[1..])
    ensures incoming[..StopIndex(incoming)] == [incoming[0]] + incoming[1..][..StopIndex(incoming[1..])]
    ensures StopTail(incoming) == StopTail(incoming[1..])
  {
    var rest := incoming[1..];
    assert !(incoming == [] || !Accepted(incoming[0]));
    var k := StopIndex(incoming);
    assert k == 1 + StopIndex(rest);
    if k < |incoming| {
      assert incoming[k] == rest[k - 1];
    }
  }

  lemma DeliveriesCons(m: Incoming, msgs: seq<Incoming>)
    requires m.Received? && forall j :: 0 <= j < |msgs| ==> msgs[j].Received?
    ensures Deliveries([m] + msgs) == [MessageHandled(m.text)] + Deliveries(msgs)
  {
  }

  /** The read loop never releases the transport itself, and calls OnClose
      at most once: exactly when OnMessage refused a message or the peer
      closed. */
  lemma {:induction false} ListenTallies(incoming: seq<Incoming>)
    ensures Tally(ListenEvents(incoming), ReleaseKind) == 0
    ensures Tally(ListenEvents(incoming), CloseCallbackKind) ==
              if Rejected(incoming) || ClosedByPeer(incoming) then 1 else 0
    ensures Tally(ListenEvents(incoming), MessageKind) ==
              StopIndex(incoming) + if Rejected(incoming) then 1 else 0
  {
    if incoming == [] {
    } else {
      match incoming[0]
      case ReadFailed(_) =>
      case PeerClosed(code, text) =>
        assert ListenEvents(incoming) == [CloseCallback(code, text)];
        assert ListenEvents(incoming)[1..] == [];
      case Received(text, None) =>
        ListenTallies(incoming[1..]);
        TallyAppend([MessageHandled(text)], ListenEvents(incoming[1..]), ReleaseKind);
        TallyAppend([MessageHandled(text)], ListenEvents(incoming[1..]), CloseCallbackKind);
        TallyAppend([MessageHandled(text)], ListenEvents(incoming[1..]), MessageKind);
        assert Rejected(incoming) == Rejected(incoming[1..]);
        assert ClosedByPeer(incoming) == ClosedByPeer(incoming[1..]);
      case Received(text, Some(e)) =>
        assert StopIndex(incoming) == 0;
        forall k: EventKind
          ensures Tally(ListenEvents(incoming), k) == (if k == MessageKind then 1 else 0) + Tally(Rejection(e), k)
        {
          assert [MessageHandled(text)][1..] == [];
          TallyAppend([MessageHandled(text)], Rejection(e), k);
        }
        RejectionTally(e, ReleaseKind);
        RejectionTally(e, CloseCallbackKind);
        RejectionTally(e, MessageKind);
    }
  }

  /** A rejection reports once, sends once and calls OnClose once. */
  lemma RejectionTally(e: Error, k: EventKind)
    ensures Tally(Rejection(e), k) == if k in {ErrorKind, SentKind, CloseCallbackKind} then 1 else 0
  {
    var r := Rejection(e);
    assert r[1..][1..][1..] == [];
    assert Tally(r[1..][1..], k) == if k == CloseCallbackKind then 1 else 0;
    assert Tally(r[1..], k) == if k in {SentKind, CloseCallbackKind} then 1 else 0;
  }

  /** The stages a connection passes through under its handler, each
      recorded by the operation that performs it. */
  datatype Phase = Opened(ok: bool) | PingStarted(interval: int) | Listened | PingStopped

  /** One accepted websocket connection. */
  class WSConn {
    const instance: Endpoint
    const ctx: Context
    const id: string
    var isClosed: bool
    /** Everything this connection has done to its transport and callbacks. */
    var log: seq<Event>
    /** The handler stages this connection has passed, in order. */
    ghost var stages: seq<Phase>

    constructor (instance: Endpoint, ctx: Context, id: string)
      ensures this.instance == instance && this.ctx == ctx && this.id == id
      ensures !isClosed && log == [] && stages == []
    {
      this.instance := instance;
      this.ctx := ctx;
      this.id := id;
      isClosed := false;
      log := [];
      stages := [];
    }

    /** Runs the endpoint's OnOpen, whose result is `answer`. On an error the
        connection is rejected and released, and the error is returned. */
    method Open(answer: Option<Error>) returns (err: Option<Error>)
      modifies this
      ensures err == answer
      ensures answer.None? ==> isClosed == old(isClosed) && log == old(log) + [OpenCalled]
      ensures answer.Some? ==> isClosed && log == old(log) + [OpenCalled] + Rejection(answer.value) + [Released]
      ensures stages == old(stages) + [Opened(answer.None?)]
    {
      log := log + [OpenCalled];
      stages := stages + [Opened(answer.None?)];
      if answer.Some? {
        log := log + Rejection(answer.value);
        Release();
        return answer;
      }
      err := None;
    }

    /** The read loop: hands each message to OnMessage until a read fails
        (a close frame from the peer first reaching OnClose) or OnMessage
        refuses one, then releases the transport. */
    method StartListen(incoming: seq<Incoming>)
      modifies this
      ensures isClosed
      ensures log == old(log) + ListenEvents(incoming) + [Released]
      ensures stages == old(stages) + [Listened]
    {
      var i := 0;
      while i < |incoming|
        invariant 0 <= i <= |incoming|
        invariant old(log) + ListenEvents(incoming) == log + ListenEvents(incoming[i..])
        invariant stages == old(stages)
      {
        assert incoming[i..][0] == incoming[i];
        assert incoming[i..][1..] == incoming[i + 1..];
        match incoming[i]
        case ReadFailed(_) =>
          break;
        case PeerClosed(code, text) =>
          log := log + [CloseCallback(code, text)];
          break;
        case Received(text, reply) =>
          log := log + [MessageHandled(text)];
          if reply.Some? {
            log := log + Rejection(reply.value);
            break;
          }
        i := i + 1;
      }
      Release();
      stages := stages + [Listened];
    }

    /** Marks the connection closed and releases the transport; not guarded,
        so it releases again if called again. */
    method Release()
      modifies this`isClosed, this`log
      ensures isClosed
      ensures log == old(log) + [Released]
    {
      isClosed := true;
      log := log + [Released];
    }

    /** Ends an open connection from outside: with "internal server error" and
        the error's text (after reporting it) when `err` is an error, with
        "normal closure" otherwise. Does nothing to a closed connection. */
    method Interrupt(err: Option<Error>)
      modifies this`isClosed, this`log
      ensures isClosed
      ensures old(isClosed) ==> log == old(log)
      ensures !old(isClosed) ==> log == old(log) + InterruptEvents(err)
    {
      if isClosed {
        return;
      }
      if err.Some? {
        log := log + [ErrorReported(err.value.text), Sent(CloseFrame(CloseInternalServerErr, err.value.text))];
      } else {
        log := log + [Sent(CloseFrame(CloseNormalClosure, ""))];
      }
      Release();
    }

    /** Writes a control frame; `result` is what the transport answers. */
    method WriteControl(kind: int, payload: Payload, result: Option<Error>) returns (err: Option<Error>)
      modifies this`isClosed, this`log
      ensures isClosed == old(isClosed)
      ensures old(isClosed) ==> err == None && log == old(log)
      ensures !old(isClosed) ==> err == result && log == old(log) + [Sent(Control(kind, payload))]
    {
      if isClosed {
        return None;
      }
      log := log + [Sent(Control(kind, payload))];
      err := result;
    }

    /** Writes a data frame; `result` is what the transport answers. */
    method WriteMessage(kind: int, data: seq<byte>, result: Option<Error>) returns (err: Option<Error>)
      modifies this`isClosed, this`log
      ensures isClosed == old(isClosed)
      ensures old(isClosed) ==> err == None && log == old(log)
      ensures !old(isClosed) ==> err == result && log == old(log) + [Sent(Data(kind, data))]
    {
      if isClosed {
        return None;
      }
      log := log + [Sent(Data(kind, data))];
      err := result;
    }

    /** Writes a value as JSON; `result` is what the transport answers. */
    method WriteJSON(value: string, result: Option<Error>) returns (err: Option<Error>)
      modifies this`isClosed, this`log
      ensures isClosed == old(isClosed)
      ensures old(isClosed) ==> err == None && log == old(log)
      ensures !old(isClosed) ==> err == result && log == old(log) + [Sent(Json(value))]
    {
      if isClosed {
        return None;
      }
      log := log + [Sent(Json(value))];
      err := result;
    }

    /** The bound context; fixed at construction, so the same in every state. */
    function Ctx(): Context
    {
      ctx
    }

    /** The connection's identifier; fixed at construction, so the same in every state. */
    function Id(): string
    {
      id
    }
  }
}
