# Connection lifecycle of the websocket starter, in Dafny

This project models the core of a small Go websocket starter built on fiber
and gorilla: the per-connection object `WSConn`, the path-keyed endpoint
registration table, route construction at start-up, the per-connection
handler with its keepalive, and shutdown. Nothing in the source is
synchronised: the connection map and the closed flag are plain values shared by
the handler goroutines, the keepalive goroutine and `Shutdown`. The model runs
each operation to completion and leaves the interleavings out (see "## Left out").

- `base.dfy` (module `Base`): `Option`, `Outcome`, `Error` (a Go error reduced to its text), `byte`.
- `frames.dfy` (module `Frames`): the close status codes of section 7.4.1 of RFC 6455
  (1000 normal closure, 1003 unsupported data, 1011 internal server error), the message
  types the core writes (text, close and ping, numbered as the frame opcodes of section 5.2), the close-frame body as a (code, text) pair
  (section 5.5.1), and the event log: every call a connection makes on its transport
  (`Sent`, `Released`) and on its endpoint's callbacks (`OpenCalled`, `MessageHandled`,
  `ErrorReported`, `CloseCallback`).
- `bean.dfy` (module `Bean`, websocket/bean.go): the registration table
  `EndpointTable` and the class `WSConn` with its `isClosed` flag, its event log and the
  ghost list `stages` of handler stages it has passed. Each stage is appended by the
  operation that performs it: `Open`, `StartListen`, and in `websocket.dfy`
  `StartPingPong` and `Ticker.Stop`.
  The read loop is specified by the function `ListenEvents`. `Ctx()` returns the bound
  context, which the handler always sets to the background context.
- `websocket.dfy` (module `Websocket`, websocket/websocket.go): route paths and handler
  chains, the hexadecimal connection id, the keepalive interval and loop, and the class
  `Server`. Its fields are what the Go code keeps at package level: the routes handed to
  the framework, and the connection map `connections`. `Serve` needs the id mapped and
  has only the connection in its frame, so the id stays mapped through every stage.

Inputs stand in for everything the source obtains from outside:
- what `OnOpen` and `OnMessage` return;
- what successive `ReadMessage` calls return (a finite sequence; running out counts as
  a read error). A close frame from the peer is its own kind of result, `PeerClosed`:
  the handler installs the endpoint's `OnClose` as the transport's close handler
  (websocket/websocket.go:66), so such a read calls `OnClose` with the peer's code and
  text and then fails;
- what the transport answers to a write;
- the tick and stop events of the keepalive ticker;
- the 32-byte digest an id is drawn from.

The model follows what the code does, not an idealised lifecycle with exactly-once
close and graceful shutdown:
- `close()` is not guarded. A connection closed by `Interrupt` or `Shutdown` while its
  read loop runs is released once more when that loop ends. "Released exactly once"
  holds only for a connection nothing else closes while its handler runs.
- `Interrupt` never calls `OnClose`. A read error other than a peer's close frame ends
  the read loop without calling `OnClose` either.
- `Shutdown` sends 1011 with "server shutdown" rather than a normal closure. It releases
  every mapped connection, removes nothing from the map and waits for nothing.

Worked scenarios in `websocket.dfy` spell these out on concrete inputs:
`RejectedOpenScenario` (an `OnOpen` failing with "bad-auth"), `PeerCloseScenario`
(one message, then the peer's close frame), `ShutdownScenario` (a server with one
mapped open connection shut down), `WriteAfterReleaseScenario` (a write after the
release is swallowed), and `InterruptDuringReadLoop` and `ShutdownDuringReadLoop`
(the double release).

The Go methods `onOpen` and `close` of the connection are `WSConn.Open` and
`WSConn.Release` here, so that they are not mistaken for the endpoint callbacks
`OnOpen` and `OnClose`.

## Model

| member | source | states |
|---|---|---|
| `Bean.EndpointTable.Register` | websocket/bean.go:122-134 | a non-pointer template is refused before its path is looked at; a path already present is refused and the table is unchanged (the first registration stays); otherwise exactly one entry is added under `GetEndpointPath()`, keeping the middlewares in order, and every other entry is unchanged |
| `Bean.PanicNamesPath` | websocket/bean.go:124-128 | the two panic texts differ, and two repeated-path panics have the same text exactly when they name the same path |
| `Bean.EndpointTable.constructor` | websocket/bean.go:110 | the table starts empty |
| `Bean.WSConn.constructor` | websocket/websocket.go:69 | a new connection carries its template, context and id, is open, and has done nothing yet. Template, context and id are `const` fields set only here, so `Id()` and `Ctx()` (websocket/bean.go:97-103) return the construction values in every state |
| `Bean.WSConn.Open` | websocket/bean.go:21-32 | returns OnOpen's error. On an error it reports it, sends close frame (1003, text), calls `OnClose(1003, text)` and releases the transport, in that order, and ends closed. On success only the OnOpen call is logged and the flag is unchanged. Either way it records the `Opened` stage with whether OnOpen succeeded |
| `Bean.ListenEvents` | websocket/bean.go:36-49 | what the loop body does with the reads; it never releases the transport |
| `Bean.WSConn.StartListen` | websocket/bean.go:34-50 | the log grows by `ListenEvents(incoming)` and then exactly one transport release (the deferred close); the connection ends closed and records the `Listened` stage |
| `Bean.StopIndex` | websocket/bean.go:36-48 | the read that ends the loop: every earlier read is a message OnMessage accepted, and the read at that index is not |
| `Bean.ListenShape` | websocket/bean.go:34-50 | `OnMessage` is called once per message up to the stopping read, in arrival order. If OnMessage refused the stopping message, the rejection follows and nothing more. If the peer closed, `OnClose` gets the peer's code and text and nothing more follows. After any other read error, nothing follows |
| `Bean.ListenTallies` | websocket/bean.go:34-50 | the loop body itself never releases the transport. It calls `OnClose` at most once, exactly when `OnMessage` returned an error or the peer closed, and calls `OnMessage` once per processed message |
| `Bean.RejectionTally` | websocket/bean.go:41-47 | a rejection reports once, sends one frame and calls `OnClose` once |
| `Bean.WSConn.Release` | websocket/bean.go:52-57 | always leaves the flag set and releases the transport exactly once per call, guarded or not |
| `Bean.WSConn.Interrupt` | websocket/bean.go:59-74 | on a closed connection, does nothing. With an error it calls `OnError`, sends close frame (1011, its text) and releases, in that order. With nil it sends (1000, "") and releases, and never calls `OnError`. The connection always ends closed |
| `Bean.WSConn.WriteControl` | websocket/bean.go:76-81 | closed: returns nil and logs nothing; open: logs one control frame and returns the transport's answer; the flag is unchanged |
| `Bean.WSConn.WriteMessage` | websocket/bean.go:83-88 | closed: returns nil and logs nothing; open: logs one data frame and returns the transport's answer |
| `Bean.WSConn.WriteJSON` | websocket/bean.go:90-95 | closed: returns nil and logs nothing; open: logs one JSON write and returns the transport's answer |
| `Websocket.Prefix` | websocket/websocket.go:43-46 | the route prefix is the base path followed by the context path; the "append only when non-empty" guard changes nothing |
| `Websocket.RoutePathInjective` | websocket/websocket.go:49 | two table keys with the same route path are the same key |
| `Websocket.Chain` | websocket/websocket.go:52-55 | the chain has `|middlewares| + 2` handlers: the upgrade check at 0, the middlewares in order at 1..n, the endpoint handler last |
| `Websocket.BuildChain` | websocket/websocket.go:52-55 | the array filled slot by slot (index 0, copy into 1..n, last slot) holds exactly `Chain(entry)` |
| `Websocket.RoutesFor` | websocket/websocket.go:48-57 | the routes handed over for a visiting order, one per visited key |
| `Websocket.RoutesForAt` | websocket/websocket.go:48-57 | the j-th route handed over is the GET route, at the prefixed path, with the chain of the j-th visited key |
| `Websocket.OneRoutePerEntry` | websocket/websocket.go:48-57 | when the keys are visited once each, every table entry gets exactly one route at its path |
| `Websocket.Server.Start` | websocket/websocket.go:42-59 | visits every key of the table exactly once, in some order, and appends exactly the GET routes for that order; nothing else changes |
| `Websocket.HexEncode` | websocket/websocket.go:93 | two lower-case hexadecimal digits per byte |
| `Websocket.HexRoundTrip` | websocket/websocket.go:93 | decoding the encoding gives the bytes back |
| `Websocket.HexRoundTripBack` | websocket/websocket.go:93 | a lower-case hexadecimal string that decodes is the encoding of what it decodes to |
| `Websocket.GenerateId` | websocket/websocket.go:86-94 | an id is 64 characters, each in `[0-9a-f]` |
| `Websocket.PingInterval` | websocket/websocket.go:97-100 | the configured interval when non-zero, 30 otherwise; never 0 |
| `Websocket.StartPingPong` | websocket/websocket.go:96-101 | the keepalive ticker is new, running, belongs to the connection, and has the defaulted interval; the connection records the `PingStarted` stage with that interval |
| `Websocket.Ticker.constructor` | websocket/websocket.go:101 | a ticker starts running with the given interval, for the given connection |
| `Websocket.Ticker.Stop` | websocket/websocket.go:79 | `Stop` leaves the ticker stopped, whatever its state before, and its connection records the `PingStopped` stage |
| `Websocket.PingResult` | websocket/websocket.go:103-112 | how the loop ends on given events; a failure carries the answer of one of the ticks |
| `Websocket.PingLog` | websocket/websocket.go:103-112 | what the loop writes on given events; at most one write per event |
| `Websocket.PingEnd` | websocket/websocket.go:103-112 | the event that ends the loop on an open connection: every earlier event is a successful tick, and the event at that index is the stop signal or a failing tick |
| `Websocket.OnePingPerTick` | websocket/websocket.go:105-109 | on an open connection every tick up to the one that ends the loop sends exactly one ping, a failing tick included |
| `Websocket.PingStopsOnStop` | websocket/websocket.go:110-111 | on an open connection the loop returns nil on the stop signal exactly when that signal comes before any failing tick (both directions) |
| `Websocket.PingPendsOnlyUntilEventsEnd` | websocket/websocket.go:103-113 | on an open connection the loop is still waiting exactly when every event so far was a successful tick (both directions) |
| `Websocket.PingLoop` | websocket/websocket.go:102-113 | each tick issues one ping through `WSConn.WriteControl` (`OnePingPerTick`). The loop returns the first write error (`PingFailsAtFirstError`) or nil on stop (`PingStopsOnStop`), and waits only while the events last (`PingPendsOnlyUntilEventsEnd`). It logs exactly `PingLog` and leaves the flag unchanged |
| `Websocket.PingFailsAtFirstError` | websocket/websocket.go:105-109 | on an open connection the loop fails with error e exactly when a tick with a failing ping (e) comes before any stop, every earlier tick having succeeded (both directions) |
| `Websocket.ClosedPingsAreNoOps` | websocket/websocket.go:106 | on a closed connection the pings log nothing and the loop never fails |
| `Websocket.PingLogOnlyPings` | websocket/websocket.go:105-107 | the loop sends nothing but empty ping control frames |
| `Websocket.SessionTallies` | websocket/websocket.go:63-83 | over the handler's own run, with nothing else closing the connection meanwhile, `OnOpen` is called once and the transport is released exactly once. `OnClose` is called at most once: exactly when `OnOpen` or `OnMessage` returned an error or the peer closed |
| `Websocket.Server.constructor` | websocket/websocket.go:29 | no routes, no connections |
| `Websocket.Server.HandleConnection` | websocket/websocket.go:61-84 | the new connection is mapped under its generated id before it is served (`Serve` requires it) and unmapped on every path on return. Its stages, as the called operations record them, are `OnOpen`, then, only on success, keepalive started, read loop, keepalive stopped (`ServeStages`). The ticker belongs to the connection and is stopped, and the connection's log is `SessionEvents` |
| `Websocket.Server.Serve` | websocket/websocket.go:74-81 | the connection passes `OnOpen` and, only on success, `startPingPong`, the read loop and then `Stop`, in that order, as the stages recorded by those operations show; the map is outside its frame, so the id stays mapped |
| `Websocket.Server.Shutdown` | websocket/websocket.go:31-40 | every mapped connection gets a close frame (1011, "server shutdown") if it was open (none if already closed), is released once, and ends closed; the map is unchanged |

## Left out

- The fiber application, framework route registration and `SocketUpgradeHandler`
  (upgrade detection, panic recovery, header capture): framework calls. The route
  sink is the `routes` field and the upgrade check is the opaque handler `UpgradeHandler`.
- Goroutines, `future.RunAsync` and ticker timing. The keepalive loop `PingLoop`
  consumes a given sequence of tick and stop events and runs on its own. Its
  interleaving with the read loop is not modelled, and neither are the data races
  on the unsynchronised map and flag.
- `Server.HandleConnection` inserts a connection and deletes it again within one
  call, so no sequence of `Server` operations reaches a state where `Shutdown` meets
  a handler that is still running. `Shutdown` is proved for every state where no
  connection is mapped twice. `ShutdownScenario` sets up such a state directly, and
  `ShutdownDuringReadLoop` shows the effect on the connection itself.
- The three-second write deadlines (`time.Now()`) and all logging: clocks and I/O.
  A failing transport `Close` is only logged in the source, so it has no effect here.
- UUID generation, the remote address, the timestamp, header formatting and SHA-256
  inside `generateId`: foreign library calls. `GenerateId` starts from the 32-byte digest.
- `shallowCopy`'s reflective field copy: there is no Dafny counterpart to runtime
  type introspection. The per-connection instance is the template value itself.
- The ping and pong handlers installed on the transport (`SetPingHandler`,
  `SetPongHandler`). The transport library calls them from inside `ReadMessage`; the
  results of the reads are the `incoming` input, where a ping or a pong is not a
  result of its own. The close handler is modelled, as the `PeerClosed` read result.
- What a callback does to the connection it is handed. `OnOpen` and `OnMessage`
  receive the `WSConn` itself and may write through it or call `Interrupt`; each
  callback is reduced to its result, so such writes are not in the log, and an
  `Interrupt` from inside `OnMessage` would make the read loop's deferred close a
  second release.
- The byte encoding of a close-frame body (two-byte code then text): the body is the
  (code, text) pair.
- The value passed to `WriteJSON` is its JSON text. JSON encoding is not modelled.
- `PingInterval` takes the configured value as an unbounded integer. The 64-bit
  `int64` and the `time.Duration` multiplication are not modelled.
- websocket/config.go and starter.go hold a configuration struct and two hook
  registrations and no logic. The configuration is the datatype `Config`.
