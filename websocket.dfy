/**
 * Route construction, connection supervision, keepalive and shutdown of the
 * websocket starter (websocket/websocket.go).
 *
 * The package-level state (the host framework's route sink and the map of
 * live connections) is the class `Server`; the registration table is the
 * one of module Bean.
 */
module Websocket {
  import opened Base
  import opened Frames
  import opened Bean

  /** The recognised configuration options. */
  datatype Config = Config(basePath: string, contextPath: string, pingIntervalSecond: int)

  // ---------------------------------------------------------------------
  // Routes

  const GetMethod: string := "GET"

  /** One route handed to the host framework: method, path and handler chain. */
  datatype Route = Route(verb: string, path: string, handlers: seq<Handler>)

  /** The prefix of every endpoint path: the base path, then the context path
      when it is set. Appending an empty context path changes nothing, so the
      prefix is always the two concatenated. */
  function Prefix(config: Config): (p: string)
    ensures p == config.basePath + config.contextPath
  {
    if config.contextPath != "" then config.basePath + config.contextPath else config.basePath
  }

  function RoutePath(config: Config, key: string): string
  {
    Prefix(config) + key
  }

  /** Distinct table keys give distinct route paths. */
  lemma RoutePathInjective(config: Config, a: string, b: string)
    requires RoutePath(config, a) == RoutePath(config, b)
    ensures a == b
  {
    var p := Prefix(config);
    assert a == (p + a)[|p|..];
    assert b == (p + b)[|p|..];
  }

  /** The handler chain of one entry: the upgrade check, the entry's
      middlewares in their order, and the entry's connection handler last. */
  function Chain(entry: Entry): (r: seq<Handler>)
    ensures |r| == |entry.middlewares| + 2
    ensures r[0] == UpgradeHandler
    ensures r[1..|r| - 1] == entry.middlewares
    ensures r[|r| - 1] == EndpointHandler(entry)
  {
    [UpgradeHandler] + entry.middlewares + [EndpointHandler(entry)]
  }

  /** Allocates the chain of one entry and fills it slot by slot. */
  method BuildChain(entry: Entry) returns (handlers: array<Handler>)
    ensures handlers[..] == Chain(entry)
  {
    var middlewares := entry.middlewares;
    handlers := new Handler[|middlewares| + 2];
    handlers[0] := UpgradeHandler;
    for j := 0 to |middlewares|
      invariant handlers[0] == UpgradeHandler
      invariant handlers[1..j + 1] == middlewares[..j]
    {
      handlers[j + 1] := middlewares[j];
    }
    handlers[handlers.Length - 1] := EndpointHandler(entry);
    assert handlers[..] == [UpgradeHandler] + handlers[1..handlers.Length - 1] + [EndpointHandler(entry)];
  }

  /** The routes Start hands to the framework when it visits the table's keys
      in the order `order`. */
  function RoutesFor(config: Config, entries: map<string, Entry>, order: seq<string>): (routes: seq<Route>)
    requires forall j :: 0 <= j < |order| ==> order[j] in entries
    ensures |routes| == |order|
  {
    if order == [] then []
    else
      var key := order[|order| - 1];
      RoutesFor(config, entries, order[..|order| - 1]) + [Route(GetMethod, RoutePath(config, key), Chain(entries[key]))]
  }

  lemma RoutesForSnoc(config: Config, entries: map<string, Entry>, order: seq<string>, key: string)
    requires forall j :: 0 <= j < |order| ==> order[j] in entries
    requires key in entries
    ensures RoutesFor(config, entries, order + [key]) ==
              RoutesFor(config, entries, order) + [Route(GetMethod, RoutePath(config, key), Chain(entries[key]))]
  {
  }

  /** `order` lists every key of `keys` exactly once. */
  ghost predicate Enumerates(order: seq<string>, keys: set<string>)
  {
    && |order| == |keys|
    && (forall j :: 0 <= j < |order| ==> order[j] in keys)
    && (forall k :: k in keys ==> k in order)
    && (forall i, j :: 0 <= i < j < |order| ==> order[i] != order[j])
  }

  /** `order` lists, once each, the keys of `keys` not in `remaining`. */
  ghost predicate EnumeratesSoFar(order: seq<string>, remaining: set<string>, keys: set<string>)
  {
    && remaining <= keys
    && |order| + |remaining| == |keys|
    && (forall j :: 0 <= j < |order| ==> order[j] in keys && order[j] !in remaining)
    && (forall k :: k in keys && k !in remaining ==> k in order)
    && (forall i, j :: 0 <= i < j < |order| ==> order[i] != order[j])
  }

  lemma EnumerateStep(order: seq<string>, remaining: set<string>, keys: set<string>, key: string)
    requires EnumeratesSoFar(order, remaining, keys) && key in remaining
    ensures EnumeratesSoFar(order + [key], remaining - {key}, keys)
  {
  }

  /** The j-th route is the GET route of the j-th visited key. */
  lemma {:induction false} RoutesForAt(config: Config, entries: map<string, Entry>, order: seq<string>)
    requires forall j :: 0 <= j < |order| ==> order[j] in entries
    ensures forall j :: 0 <= j < |order| ==>
              RoutesFor(config, entries, order)[j] == Route(GetMethod, RoutePath(config, order[j]), Chain(entries[order[j]]))
  {
    if order != [] {
      RoutesForAt(config, entries, order[..|order| - 1]);
    }
  }

  /** Visiting every key once gives exactly one route per table entry. */
  lemma OneRoutePerEntry(config: Config, entries: map<string, Entry>, order: seq<string>, key: string)
    requires Enumerates(order, entries.Keys)
    requires key in entries
    ensures exists j :: 0 <= j < |order| && RoutesFor(config, entries, order)[j].path == RoutePath(config, key)
    ensures forall i, j ::
              (0 <= i < j < |order| && RoutesFor(config, entries, order)[i].path == RoutePath(config, key)) ==>
                RoutesFor(config, entries, order)[j].path != RoutePath(config, key)
  {
    RoutesForAt(config, entries, order);
    var routes := RoutesFor(config, entries, order);
    var j :| 0 <= j < |order| && order[j] == key;
    assert routes[j].path == RoutePath(config, key);
    forall i, j | 0 <= i < j < |order| && routes[i].path == RoutePath(config, key)
      ensures routes[j].path != RoutePath(config, key)
    {
      if routes[j].path == RoutePath(config, key) {
        RoutePathInjective(config, order[i], key);
        RoutePathInjective(config, order[j], key);
      }
    }
  }

  // ---------------------------------------------------------------------
  // Connection identifiers

  type Nibble = n: int | 0 <= n < 16

  function HexDigit(n: Nibble): char
  {
    if n < 10 then ('0' as int + n) as char else ('a' as int + n - 10) as char
  }

  predicate IsLowerHex(c: char)
  {
    '0' <= c <= '9' || 'a' <= c <= 'f'
  }

  /** Lower-case hexadecimal, two digits per byte, high nibble first. */
  function HexEncode(data: seq<byte>): (s: string)
    ensures |s| == 2 * |data|
    ensures forall j :: 0 <= j < |s| ==> IsLowerHex(s[j])
  {
    if data == [] then []
    else
      var b := data[0] as int;
      [HexDigit(b / 16), HexDigit(b % 16)] + HexEncode(data[1..])
  }

  /** The value of one hexadecimal digit of either case. */
  function HexValue(c: char): Option<Nibble>
  {
    if '0' <= c <= '9' then Some(c as int - '0' as int)
    else if 'a' <= c <= 'f' then Some(c as int - 'a' as int + 10)
    else if 'A' <= c <= 'F' then Some(c as int - 'A' as int + 10)
    else None
  }

  /** The inverse of HexEncode: None on an odd length or a non-digit. */
  function HexDecode(s: string): Option<seq<byte>>
  {
    if s == [] then Some([])
    else if |s| == 1 then None
    else
      var hi, lo, rest := HexValue(s[0]), HexValue(s[1]), HexDecode(s[2..]);
      if hi.Some? && lo.Some? && rest.Some? then Some([(hi.value * 16 + lo.value) as byte] + rest.value)
      else None
  }

  lemma HexDigitValue(n: Nibble)
    ensures HexValue(HexDigit(n)) == Some(n)
  {
  }

  lemma {:induction false} HexRoundTrip(data: seq<byte>)
    ensures HexDecode(HexEncode(data)) == Some(data)
  {
    if data != [] {
      var s := HexEncode(data);
      var b := data[0] as int;
      var hi, lo := b / 16, b % 16;
      HexRoundTrip(data[1..]);
      assert s[2..] == HexEncode(data[1..]);
      HexDigitValue(hi);
      HexDigitValue(lo);
      assert HexValue(s[0]) == Some(hi) && HexValue(s[1]) == Some(lo);
      assert hi * 16 + lo == b;
      assert HexDecode(s) == Some([(hi * 16 + lo) as byte] + data[1..]);
      assert [data[0]] + data[1..] == data;
    }
  }

  lemma {:induction false} HexRoundTripBack(s: string)
    requires forall j :: 0 <= j < |s| ==> IsLowerHex(s[j])
    requires HexDecode(s).Some?
    ensures HexEncode(HexDecode(s).value) == s
  {
    if s != [] {
      assert |s| >= 2;
      var hi: int, lo: int := HexValue(s[0]).value, HexValue(s[1]).value;
      HexRoundTripBack(s[2..]);
      var rest := HexDecode(s[2..]).value;
      var b := (hi * 16 + lo) as byte;
      assert HexDecode(s).value == [b] + rest;
      assert b as int / 16 == hi && b as int % 16 == lo;
      assert HexDigit(hi) == s[0] && HexDigit(lo) == s[1];
      assert HexEncode([b] + rest) == [s[0], s[1]] + HexEncode(rest) by {
        assert ([b] + rest)[1..] == rest;
      }
      assert s == [s[0], s[1]] + s[2..];
    }
  }

  /** A connection identifier: the hexadecimal form of a 32-byte digest, so
      64 lower-case hexadecimal digits. */
  function GenerateId(digest: seq<byte>): (id: string)
    requires |digest| == 32
    ensures |id| == 64
    ensures forall j :: 0 <= j < |id| ==> IsLowerHex(id[j])
  {
    HexEncode(digest)
  }

  // ---------------------------------------------------------------------
  // Keepalive

  const DefaultPingIntervalSecond: int := 30

  /** The keepalive period in seconds: the configured one, or 30 when unset. */
  function PingInterval(configured: int): (seconds: int)
    ensures seconds != 0
    ensures configured != 0 ==> seconds == configured
    ensures configured == 0 ==> seconds == DefaultPingIntervalSecond
  {
    if configured == 0 then DefaultPingIntervalSecond else configured
  }

  /** The keepalive timer of one connection. */
  class Ticker {
    const interval: int
    /** The connection whose keepalive this is. */
    ghost const conn: WSConn
    var stopped: bool

    constructor (interval: int, ghost conn: WSConn)
      ensures this.interval == interval && this.conn == conn && !stopped
    {
      this.interval := interval;
      this.conn := conn;
      stopped := false;
    }

    /** Stops the keepalive, which ends the connection's PingStopped stage. */
    method Stop()
      modifies this, conn`stages
      ensures stopped
      ensures conn.stages == old(conn.stages) + [PingStopped]
    {
      stopped := true;
      conn.stages := conn.stages + [PingStopped];
    }
  }

  /** Starts the keepalive of a connection. The loop run alongside the
      connection is PingLoop. */
  method StartPingPong(conn: WSConn, configured: int) returns (ticker: Ticker)
    modifies conn`stages
    ensures fresh(ticker) && !ticker.stopped && ticker.conn == conn
    ensures ticker.interval == PingInterval(configured)
    ensures conn.stages == old(conn.stages) + [PingStarted(ticker.interval)]
  {
    ticker := new Ticker(PingInterval(configured), conn);
    conn.stages := conn.stages + [PingStarted(ticker.interval)];
  }

  /** What the keepalive loop observes: a tick, with what the transport
      answers to that tick's ping, or the stop signal. */
  datatype TickerEvent = Tick(result: Option<Error>) | StopSignal

  /** How the keepalive loop ends: still waiting, stopped, or on a failed ping. */
  datatype PingOutcome = Pending | Stopped | WriteFailed(err: Error)

  /** How the keepalive loop ends on the given events; it can fail only with
      the answer of one of the ticks. */
  function PingResult(closed: bool, events: seq<TickerEvent>): (r: PingOutcome)
    ensures r.WriteFailed? ==> Tick(Some(r.err)) in events
  {
    if events == [] then Pending
    else match events[0]
      case StopSignal => Stopped
      case Tick(r) => if !closed && r.Some? then WriteFailed(r.value) else PingResult(closed, events[1..])
  }

  /** What the keepalive loop writes on the given events; at most one write
      per event. */
  function PingLog(closed: bool, events: seq<TickerEvent>): (r: seq<Event>)
    ensures |r| <= |events|
  {
    if events == [] then []
    else match events[0]
      case StopSignal => []
      case Tick(r) =>
        if closed then PingLog(closed, events[1..])
        else if r.Some? then [Sent(PingFrame)]
        else [Sent(PingFrame)] + PingLog(closed, events[1..])
  }

  /** On an open connection the loop fails exactly when some tick's ping fails
      before any stop signal, and then with the first such failure. */
  lemma {:induction false} PingFailsAtFirstError(events: seq<TickerEvent>, e: Error)
    ensures PingResult(false, events) == WriteFailed(e) <==>
              exists k :: 0 <= k < |events| && events[k] == Tick(Some(e)) &&
                forall j :: 0 <= j < k ==> events[j] == Tick(None)
  {
    if events != [] {
      PingFailsAtFirstError(events[1..], e);
      if PingResult(false, events) == WriteFailed(e) {
        if events[0] != Tick(Some(e)) {
          var k :| 0 <= k < |events[1..]| && events[1..][k] == Tick(Some(e)) &&
                   forall j :: 0 <= j < k ==> events[1..][j] == Tick(None);
          assert events[k + 1] == Tick(Some(e));
          assert forall j :: 0 <= j < k + 1 ==> events[j] == Tick(None) by {
            forall j | 0 <= j < k + 1 ensures events[j] == Tick(None) {
              if j > 0 { assert events[j] == events[1..][j - 1]; }
            }
          }
        }
      } else {
        forall k | 0 <= k < |events| && events[k] == Tick(Some(e))
          ensures exists j :: 0 <= j < k && events[j] != Tick(None)
        {
          if k == 0 {
            assert false;
          } else if events[0] != Tick(None) {
            assert 0 < k;
          } else {
            assert events[1..][k - 1] == Tick(Some(e));
            var j :| 0 <= j < k - 1 && events[1..][j] != Tick(None);
            assert events[j + 1] != Tick(None);
          }
        }
      }
    }
  }

  /** On a closed connection the loop writes nothing and never fails. */
  lemma {:induction false} ClosedPingsAreNoOps(events: seq<TickerEvent>)
    ensures PingLog(true, events) == []
    ensures !PingResult(true, events).WriteFailed?
  {
    if events != [] && events[0].Tick? {
      ClosedPingsAreNoOps(events[1..]);
    }
  }

  /** The loop sends nothing but pings. */
  lemma {:induction false} PingLogOnlyPings(closed: bool, events: seq<TickerEvent>)
    ensures forall j :: 0 <= j < |PingLog(closed, events)| ==> PingLog(closed, events)[j] == Sent(PingFrame)
  {
    if events != [] && events[0].Tick? {
      PingLogOnlyPings(closed, events[1..]);
    }
  }

  /** The position of the event that ends the keepalive loop on an open
      connection: the stop signal or a failing tick (|events| if none does). */
  function PingEnd(events: seq<TickerEvent>): (k: nat)
    ensures k <= |events|
    ensures forall j :: 0 <= j < k ==> events[j] == Tick(None)
    ensures k < |events| ==> events[k] != Tick(None)
  {
    if events == [] || events[0] != Tick(None) then 0 else 1 + PingEnd(events[1..])
  }

  /** On an open connection every tick up to the one that ends the loop sends
      exactly one ping, a failing tick included. */
  lemma {:induction false} OnePingPerTick(events: seq<TickerEvent>)
    ensures var k := PingEnd(events);
      |PingLog(false, events)| == if k < |events| && events[k].Tick? then k + 1 else k
  {
    if events != [] && events[0] == Tick(None) {
      OnePingPerTick(events[1..]);
      assert PingEnd(events) == 1 + PingEnd(events[1..]);
      if PingEnd(events) < |events| {
        assert events[PingEnd(events)] == events[1..][PingEnd(events[1..])];
      }
    }
  }

  /** On an open connection the loop returns on the stop signal exactly when
      that signal comes before any failing tick. */
  lemma {:induction false} PingStopsOnStop(events: seq<TickerEvent>)
    ensures PingResult(false, events) == Stopped <==>
              PingEnd(events) < |events| && events[PingEnd(events)] == StopSignal
  {
    if events != [] && events[0] == Tick(None) {
      PingStopsOnStop(events[1..]);
      if PingEnd(events) < |events| {
        assert events[PingEnd(events)] == events[1..][PingEnd(events[1..])];
      }
    }
  }

  /** On an open connection the loop is still waiting exactly when every
      event was a successful tick. */
  lemma {:induction false} PingPendsOnlyUntilEventsEnd(events: seq<TickerEvent>)
    ensures PingResult(false, events) == Pending <==> PingEnd(events) == |events|
  {
    if events != [] && events[0] == Tick(None) {
      PingPendsOnlyUntilEventsEnd(events[1..]);
    }
  }

  /** The keepalive loop of one connection: a ping on every tick, returning
      on the first failed ping or on the stop signal. Pings on a closed
      connection do nothing. */
  method PingLoop(conn: WSConn, events: seq<TickerEvent>) returns (outcome: PingOutcome)
    modifies conn
    ensures conn.isClosed == old(conn.isClosed)
    ensures outcome == PingResult(old(conn.isClosed), events)
    ensures conn.log == old(conn.log) + PingLog(old(conn.isClosed), events)
  {
    ghost var closed := conn.isClosed;
    var rest := events;
    while rest != []
      invariant conn.isClosed == closed
      invariant PingResult(closed, events) == PingResult(closed, rest)
      invariant old(conn.log) + PingLog(closed, events) == conn.log + PingLog(closed, rest)
    {
      match rest[0]
      case StopSignal =>
        return Stopped;
      case Tick(r) =>
        var err := conn.WriteControl(PingMessage, Bytes([]), r);
        if err.Some? {
          return WriteFailed(err.value);
        }
      rest := rest[1..];
    }
    outcome := Pending;
  }

  // ---------------------------------------------------------------------
  // Connection supervision

  /** Everything one connection does, from OnOpen to its release, given what
      OnOpen answers and what the reads return. */
  function SessionEvents(answer: Option<Error>, incoming: seq<Incoming>): seq<Event>
  {
    match answer
    case Some(e) => [OpenCalled] + Rejection(e) + [Released]
    case None => [OpenCalled] + ListenEvents(incoming) + [Released]
  }

  /** For a connection that nothing else closes while its handler runs, the
      transport is released exactly once (a Shutdown or an Interrupt during
      the read loop adds a second release: see InterruptDuringReadLoop and
      ShutdownDuringReadLoop). OnClose runs at most once in any case: exactly
      when OnOpen or OnMessage returned an error or the peer closed. */
  lemma SessionTallies(answer: Option<Error>, incoming: seq<Incoming>)
    ensures Tally(SessionEvents(answer, incoming), ReleaseKind) == 1
    ensures Tally(SessionEvents(answer, incoming), CloseCallbackKind) ==
              if answer.Some? || Rejected(incoming) || ClosedByPeer(incoming) then 1 else 0
    ensures Tally(SessionEvents(answer, incoming), OpenKind) == 1
  {
    ListenTallies(incoming);
    forall k: EventKind
      ensures Tally(SessionEvents(answer, incoming), k) ==
                (if k == OpenKind then 1 else 0) +
                Tally(if answer.Some? then Rejection(answer.value) else ListenEvents(incoming), k) +
                (if k == ReleaseKind then 1 else 0)
    {
      var middle := if answer.Some? then Rejection(answer.value) else ListenEvents(incoming);
      assert SessionEvents(answer, incoming) == [OpenCalled] + middle + [Released];
      TallyAppend([OpenCalled] + middle, [Released], k);
      TallyAppend([OpenCalled], middle, k);
      assert [Released][1..] == [];
      assert [OpenCalled][1..] == [];
    }
    if answer.Some? {
      RejectionTally(answer.value, ReleaseKind);
      RejectionTally(answer.value, CloseCallbackKind);
      RejectionTally(answer.value, OpenKind);
    }
    OpenNotInListen(incoming);
  }

  lemma {:induction false} OpenNotInListen(incoming: seq<Incoming>)
    ensures Tally(ListenEvents(incoming), OpenKind) == 0
  {
    if incoming != [] && incoming[0].PeerClosed? {
      assert ListenEvents(incoming)[1..] == [];
    } else if incoming != [] && incoming[0].Received? {
      var events := ListenEvents(incoming);
      if incoming[0].reply.None? {
        OpenNotInListen(incoming[1..]);
        assert events[1..] == ListenEvents(incoming[1..]);
      } else {
        assert events == [MessageHandled(incoming[0].text)] + Rejection(incoming[0].reply.value);
        assert [MessageHandled(incoming[0].text)][1..] == [];
        TallyAppend([MessageHandled(incoming[0].text)], Rejection(incoming[0].reply.value), OpenKind);
        RejectionTally(incoming[0].reply.value, OpenKind);
      }
    }
  }

  /** The stages a connection passes while its handler serves it: OnOpen;
      and only when it succeeds, the keepalive, then the read loop, then
      stopping the keepalive. */
  function ServeStages(ok: bool, interval: int): seq<Phase>
  {
    [Opened(ok)] + (if ok then [PingStarted(interval), Listened, PingStopped] else [])
  }

  /** The reason Shutdown sends to every connection. */
  const ShutdownReason: string := "server shutdown"

  /** What Shutdown does to one connection that was closed or open before. */
  function ShutdownEvents(wasClosed: bool): seq<Event>
  {
    (if wasClosed then [] else [Sent(CloseFrame(CloseInternalServerErr, ShutdownReason))]) + [Released]
  }

  /** No value is mapped under two keys. */
  ghost predicate Injective<K, V>(m: map<K, V>)
  {
    forall a, b :: a in m && b in m && a != b ==> m[a] != m[b]
  }

  /** The package-level state of the server. */
  class Server {
    const config: Config
    const table: EndpointTable
    /** The routes handed to the host framework. */
    var routes: seq<Route>
    /** The live connections, by id. */
    var connections: map<string, WSConn>

    /** No connection object is mapped under two ids. */
    ghost predicate Valid()
      reads this
    {
      Injective(connections)
    }

    constructor (config: Config, table: EndpointTable)
      ensures this.config == config && this.table == table
      ensures routes == [] && connections == map[]
      ensures Valid()
    {
      this.config := config;
      this.table := table;
      routes := [];
      connections := map[];
    }

    /** Hands the framework one GET route per registered entry, at the
        prefixed path, with its handler chain; the table's keys are visited
        in some order `order`. */
    method Start() returns (ghost order: seq<string>)
      modifies this`routes
      ensures Enumerates(order, table.entries.Keys)
      ensures routes == old(routes) + RoutesFor(config, table.entries, order)
    {
      var entries := table.entries;
      var path := Prefix(config);
      var remaining := entries.Keys;
      order := [];
      while remaining != {}
        invariant EnumeratesSoFar(order, remaining, entries.Keys)
        invariant routes == old(routes) + RoutesFor(config, entries, order)
        decreases remaining
      {
        var key :| key in remaining;
        var handlers := BuildChain(entries[key]);
        var route := Route(GetMethod, path + key, handlers[..]);
        assert route == Route(GetMethod, RoutePath(config, key), Chain(entries[key]));
        RoutesForSnoc(config, entries, order, key);
        assert routes + [route] == old(routes) + RoutesFor(config, entries, order + [key]);
        routes := routes + [route];
        EnumerateStep(order, remaining, entries.Keys, key);
        order := order + [key];
        remaining := remaining - {key};
      }
    }

    /** The per-connection handler: maps the new connection by its id, runs
        it (see Serve, which needs the id mapped and cannot unmap it), and
        unmaps the id on return, on every path. `digest` is the hash the id is
        drawn from, `answer` what OnOpen returns and `incoming` what the reads
        return. */
    method HandleConnection(entry: Entry, digest: seq<byte>, answer: Option<Error>, incoming: seq<Incoming>)
      returns (conn: WSConn, ticker: Ticker?)
      requires Valid()
      requires |digest| == 32
      modifies this`connections
      ensures Valid()
      ensures fresh(conn) && conn.id == GenerateId(digest)
      ensures conn.instance == entry.endpoint && conn.ctx == Background
      ensures connections == old(connections) - {conn.id}
      ensures conn.isClosed && conn.log == SessionEvents(answer, incoming)
      ensures conn.stages == ServeStages(answer.None?, PingInterval(config.pingIntervalSecond))
      ensures (ticker != null) == answer.None?
      ensures ticker != null ==>
                fresh(ticker) && ticker.conn == conn && ticker.stopped &&
                ticker.interval == PingInterval(config.pingIntervalSecond)
    {
      conn := new WSConn(entry.endpoint, Background, GenerateId(digest));
      var id := conn.Id();
      ghost var before := connections;
      connections := connections[id := conn];
      ticker := Serve(conn, answer, incoming);
      connections := connections - {id};
      assert connections == before - {id};
    }

    /** The handler's body while the connection is mapped: OnOpen, and on
        success the keepalive, the read loop, and stopping the keepalive.
        The map is outside its frame, so the id stays mapped throughout. */
    method Serve(conn: WSConn, answer: Option<Error>, incoming: seq<Incoming>) returns (ticker: Ticker?)
      requires conn.id in connections && !conn.isClosed && conn.log == []
      modifies conn
      ensures conn.isClosed && conn.log == SessionEvents(answer, incoming)
      ensures conn.stages == old(conn.stages) + ServeStages(answer.None?, PingInterval(config.pingIntervalSecond))
      ensures (ticker != null) == answer.None?
      ensures ticker != null ==>
                fresh(ticker) && ticker.conn == conn && ticker.stopped &&
                ticker.interval == PingInterval(config.pingIntervalSecond)
    {
      var err := conn.Open(answer);
      if err.None? {
        ticker := StartPingPong(conn, config.pingIntervalSecond);
        conn.StartListen(incoming);
        ticker.Stop();
      } else {
        ticker := null;
      }
    }

    /** Sends every mapped connection a close frame with "internal server
        error" and "server shutdown" (a no-op on a closed one) and releases
        it. The map itself is left as it is. */
    method Shutdown()
      requires Valid()
      modifies connections.Values
      ensures forall id :: id in connections ==> connections[id].isClosed
      ensures forall id :: id in connections ==>
                connections[id].log == old(connections[id].log) + ShutdownEvents(old(connections[id].isClosed))
    {
      var remaining := connections.Keys;
      while remaining != {}
        invariant remaining <= connections.Keys
        invariant forall id :: id in connections && id !in remaining ==>
                    connections[id].isClosed &&
                    connections[id].log == old(connections[id].log) + ShutdownEvents(old(connections[id].isClosed))
        invariant forall id :: id in remaining ==>
                    connections[id].isClosed == old(connections[id].isClosed) &&
                    connections[id].log == old(connections[id].log)
        decreases remaining
      {
        var id :| id in remaining;
        var conn := connections[id];
        // The transport's answer is discarded, so success is as good as any.
        var _ := conn.WriteControl(CloseMessage, FormatCloseMessage(CloseInternalServerErr, ShutdownReason), None);
        conn.Release();
        remaining := remaining - {id};
      }
    }
  }

  /** A connection whose OnOpen fails with "bad-auth": the error is reported,
      a close frame and OnClose carry "unsupported data" and the text, the
      transport is released, no keepalive starts and the id is unmapped. */
  method RejectedOpenScenario(table: EndpointTable, digest: seq<byte>)
    requires |digest| == 32
  {
    var server := new Server(Config("", "", 0), table);
    var entry := Entry(Endpoint("echo", true, "/echo"), []);
    var conn, ticker := server.HandleConnection(entry, digest, Some(Error("bad-auth")), []);
    assert conn.log == [OpenCalled, ErrorReported("bad-auth"),
                        Sent(CloseFrame(CloseUnsupportedData, "bad-auth")),
                        CloseCallback(CloseUnsupportedData, "bad-auth"), Released];
    assert ticker == null && conn.id !in server.connections;
  }

  /** The close path is not guarded: a connection interrupted while its read
      loop runs is released a second time when that loop ends. */
  method InterruptDuringReadLoop(conn: WSConn)
    requires !conn.isClosed && conn.log == []
    modifies conn
  {
    conn.Interrupt(None);
    conn.StartListen([ReadFailed(Error("use of closed network connection"))]);
    assert conn.log == [Sent(CloseFrame(CloseNormalClosure, "")), Released, Released];
  }

  /** Shutdown reaching a connection whose read loop is still running: the
      close frame goes out and the transport is released, the pending read
      then fails and the loop's deferred close releases it again. */
  method ShutdownDuringReadLoop(conn: WSConn)
    requires !conn.isClosed && conn.log == []
    modifies conn
  {
    var _ := conn.WriteControl(CloseMessage, FormatCloseMessage(CloseInternalServerErr, ShutdownReason), None);
    conn.Release();
    conn.StartListen([ReadFailed(Error("use of closed network connection"))]);
    assert conn.log == [Sent(CloseFrame(CloseInternalServerErr, ShutdownReason)), Released, Released];
  }

  /** A session the peer ends: one message is handled, then the peer's close
      frame reaches OnClose, and the transport is released once. */
  method PeerCloseScenario(conn: WSConn)
    requires !conn.isClosed && conn.log == []
    modifies conn
  {
    var err := conn.Open(None);
    conn.StartListen([Received("hello", None), PeerClosed(CloseNormalClosure, "bye")]);
    assert conn.log == SessionEvents(None, [Received("hello", None), PeerClosed(CloseNormalClosure, "bye")]);
    assert conn.log == [OpenCalled, MessageHandled("hello"), CloseCallback(CloseNormalClosure, "bye"), Released];
  }

  /** Shutdown of a server with one live connection that is open: the close
      frame goes out, the transport is released, and the id stays mapped. */
  method ShutdownScenario(conn: WSConn, table: EndpointTable)
    requires !conn.isClosed && conn.log == []
    modifies conn
  {
    var server := new Server(Config("", "", 0), table);
    server.connections := map[conn.Id() := conn];
    server.Shutdown();
    assert conn.Id() in server.connections && server.connections[conn.Id()] == conn;
    assert conn.isClosed && conn.log == [Sent(CloseFrame(CloseInternalServerErr, ShutdownReason)), Released];
  }

  /** Writes after the release are swallowed: a text message sent while open
      reaches the transport, the same write after Release returns nil and
      reaches nothing, whatever the transport would have answered. */
  method WriteAfterReleaseScenario(conn: WSConn)
    requires !conn.isClosed && conn.log == []
    modifies conn
  {
    var hi: seq<byte> := [104, 105];
    var sent := conn.WriteMessage(TextMessage, hi, None);
    conn.Release();
    var late := conn.WriteMessage(TextMessage, hi, Some(Error("broken pipe")));
    assert sent == None && late == None;
    assert conn.log == [Sent(Data(TextMessage, hi)), Released];
  }
}
