/**
  The request and event handling of server/routes.ts as a state machine. The
  state is the scan history and, for every WebSocket client, its `readyState`
  and the sequence of messages sent to it so far. Each HTTP request, each
  connection and each incoming WebSocket message is one atomic transition:
  Node runs every handler to completion before the next one starts.
 */
module Server {
  import opened Wrappers
  import opened Url
  import opened Datasets
  import opened Detection
  import opened History

  /** What the handlers read but never change. */
  datatype Env = Env(
    parse: Parser,                 // `new URL`
    analyze: string -> Analysis,   // `analyzeUrl`, as imported from the detector
    routes: Datasets)              // the sets `loadUrlDatabases` filled

  /**
    The environment after both modules have loaded at start-up, from the same
    two files: the detector with the sets `initializeDatasets` built, and the
    route's own sets.
   */
  function Boot(legit: FileRead, phish: FileRead, parse: Parser): (env: Env)
    ensures env.parse == parse && env.routes == LoadRouteDatasets(legit, phish)
    ensures forall u :: env.analyze(u) == AnalyzeUrl(LoadDetectorDatasets(legit, phish, parse), parse, u)
  {
    var d := LoadDetectorDatasets(legit, phish, parse);
    Env(parse, u => AnalyzeUrl(d, parse, u), LoadRouteDatasets(legit, phish))
  }

  /** `WebSocket.readyState`. */
  datatype ReadyState = Connecting | Open | Closing | Closed

  /** A message sent to one client, before JSON serialisation. */
  datatype Outbound =
    | HistorySnapshot(history: seq<ScanRecord>)   // type 'history'
    | NewScan(record: ScanRecord)                 // type 'new-scan'
    | ScanResult(record: ScanRecord)              // type 'scan-result'
    | ScanError(message: string)                  // type 'error'

  datatype Client = Client(state: ReadyState, outbox: seq<Outbound>)

  type ClientId = nat

  datatype ServerState = ServerState(history: seq<ScanRecord>, clients: map<ClientId, Client>, nextClient: ClientId)

  /** What every reachable state satisfies: the history is within its cap and client ids are issued in order. */
  predicate Valid(s: ServerState)
  {
    |s.history| <= Capacity && forall id :: id in s.clients ==> id < s.nextClient
  }

  const InitialState := ServerState([], map[], 0)

  const UrlRequired := "URL is required"
  const InvalidUrlFormat := "Invalid URL format. Please include http:// or https://"
  const WsInvalidUrl := "Invalid URL format"

  // ---- broadcastScanResult -----------------------------------------------

  /** Sends `m` to every open client and to no other. */
  function Broadcast(clients: map<ClientId, Client>, m: Outbound): (cs: map<ClientId, Client>)
    ensures cs.Keys == clients.Keys
    ensures forall id :: id in clients && clients[id].state == Open ==>
      cs[id] == clients[id].(outbox := clients[id].outbox + [m])
    ensures forall id :: id in clients && clients[id].state != Open ==> cs[id] == clients[id]
  {
    map id | id in clients :: if clients[id].state == Open then clients[id].(outbox := clients[id].outbox + [m]) else clients[id]
  }

  /** `ws.send(m)` guarded by `ws.readyState === WebSocket.OPEN`; a client that is not connected receives nothing. */
  function SendIfOpen(clients: map<ClientId, Client>, id: ClientId, m: Outbound): (cs: map<ClientId, Client>)
    ensures cs.Keys == clients.Keys
    ensures id in clients && clients[id].state == Open ==> cs[id].outbox == clients[id].outbox + [m]
    ensures forall j :: j in clients && (j != id || clients[j].state != Open) ==> cs[j] == clients[j]
  {
    if id in clients && clients[id].state == Open then clients[id := clients[id].(outbox := clients[id].outbox + [m])]
    else clients
  }

  /** Records a scan: the history gains the record and every open client is told of it. */
  function RecordScan(s: ServerState, r: ScanRecord): (s': ServerState)
    ensures s'.history == Append(s.history, r)
    ensures s'.clients == Broadcast(s.clients, NewScan(r))
    ensures s'.nextClient == s.nextClient
  {
    s.(history := Append(s.history, r), clients := Broadcast(s.clients, NewScan(r)))
  }

  // ---- POST /api/scan ----------------------------------------------------

  datatype Response = Response(status: nat, body: ResponseBody)

  datatype ResponseBody =
    | ErrorBody(message: string)
    | ScanBody(url: string, isSafe: bool, message: string)

  datatype HttpStep = HttpStep(state: ServerState, response: Response)

  /** The verdict of the route: its own dataset lookup first, `analyzeUrl` only on a miss. */
  function RouteVerdict(env: Env, url: string, p: ParsedUrl): (v: (bool, string))
    ensures p.hostname in env.routes.legitimate ==> v == (true, LegitimateHitMessage)
    ensures p.hostname !in env.routes.legitimate && KnownPhishing(env.routes, url, p.hostname) ==>
      v == (false, PhishingHitMessage)
    ensures p.hostname !in env.routes.legitimate && !KnownPhishing(env.routes, url, p.hostname) ==>
      var a := env.analyze(url); v == (a.isSafe, a.message)
  {
    if p.hostname in env.routes.legitimate then (true, LegitimateHitMessage)
    else if KnownPhishing(env.routes, url, p.hostname) then (false, PhishingHitMessage)
    else
      var a := env.analyze(url);
      (a.isSafe, a.message)
  }

  /**
    The `/api/scan` handler for a body whose `url` field is `url` (`None` when
    absent), at time `now`. Only string values are modelled; a falsy string is
    the empty one.
   */
  function HttpScan(env: Env, s: ServerState, url: Option<string>, now: int): (step: HttpStep)
    ensures (url.None? || url == Some("")) ==>
      step == HttpStep(s, Response(400, ErrorBody(UrlRequired)))
    ensures url.Some? && url.value != "" && env.parse(url.value).None? ==>
      step == HttpStep(s, Response(400, ErrorBody(InvalidUrlFormat)))
    ensures url.Some? && url.value != "" && env.parse(url.value).Some? ==>
      var v := RouteVerdict(env, url.value, env.parse(url.value).value);
      var r := ScanRecord(now, url.value, v.0, v.1);
      && step.state == RecordScan(s, r)
      && step.response == Response(200, ScanBody(url.value, v.0, v.1))
  {
    match url
    case None => HttpStep(s, Response(400, ErrorBody(UrlRequired)))
    case Some(u) =>
      if u == "" then HttpStep(s, Response(400, ErrorBody(UrlRequired)))
      else match env.parse(u)
        case None => HttpStep(s, Response(400, ErrorBody(InvalidUrlFormat)))
        case Some(p) =>
          var v := RouteVerdict(env, u, p);
          var r := ScanRecord(now, u, v.0, v.1);
          HttpStep(RecordScan(s, r), Response(200, ScanBody(u, v.0, v.1)))
  }

  // ---- GET /api/stats --------------------------------------------------

  /** `/api/stats` against the route's datasets. */
  function StatsOf(env: Env, s: ServerState): (st: Stats)
    ensures st.totalScans == |s.history| && st.safeScans + st.phishingScans == |s.history|
    ensures st.knownLegitimateUrls == |env.routes.legitimate| && st.knownPhishingUrls == |env.routes.phishing|
  {
    ComputeStats(s.history, env.routes)
  }

  // ---- WebSocket ---------------------------------------------------------

  /** A new connection: the client gets the next id and, as its first message, the current history. */
  function Connect(s: ServerState): (s': ServerState)
    ensures s'.clients.Keys == s.clients.Keys + {s.nextClient}
    ensures s'.clients[s.nextClient] == Client(Open, [HistorySnapshot(s.history)])
    ensures forall id :: id in s.clients && id != s.nextClient ==> s'.clients[id] == s.clients[id]
    ensures s'.history == s.history && s'.nextClient == s.nextClient + 1
  {
    s.(clients := s.clients[s.nextClient := Client(Open, [HistorySnapshot(s.history)])], nextClient := s.nextClient + 1)
  }

  /** The socket library moves a client to another `readyState` (closing, closed); nothing is sent. */
  function SetReadyState(s: ServerState, id: ClientId, state: ReadyState): (s': ServerState)
    ensures s'.history == s.history && s'.nextClient == s.nextClient
    ensures s'.clients.Keys == s.clients.Keys
    ensures id in s.clients ==> s'.clients[id] == s.clients[id].(state := state)
    ensures forall j :: j in s.clients && j != id ==> s'.clients[j] == s.clients[j]
  {
    if id in s.clients then s.(clients := s.clients[id := s.clients[id].(state := state)]) else s
  }

  /** An incoming WebSocket message once `JSON.parse` has run: text that is not JSON, or an object's `type` and `url` fields. */
  datatype Incoming = Malformed | Message(msgType: string, url: Option<string>)

  /** A message that asks for a scan: type "scan" and a truthy `url`. */
  predicate IsScanRequest(m: Incoming)
  {
    m.Message? && m.msgType == "scan" && m.url.Some? && m.url.value != ""
  }

  /** The `message` handler for client `id`, at time `now`. */
  function Receive(env: Env, s: ServerState, id: ClientId, m: Incoming, now: int): (s': ServerState)
    ensures !IsScanRequest(m) ==> s' == s
    ensures IsScanRequest(m) && env.parse(m.url.value).None? ==>
      s' == s.(clients := SendIfOpen(s.clients, id, ScanError(WsInvalidUrl)))
    ensures IsScanRequest(m) && env.parse(m.url.value).Some? ==>
      var a := env.analyze(m.url.value);
      var r := ScanRecord(now, m.url.value, a.isSafe, a.message);
      var t := RecordScan(s, r);
      s' == t.(clients := SendIfOpen(t.clients, id, ScanResult(r)))
  {
    if !IsScanRequest(m) then s
    else
      var u := m.url.value;
      if env.parse(u).None? then s.(clients := SendIfOpen(s.clients, id, ScanError(WsInvalidUrl)))
      else
        var a := env.analyze(u);
        var r := ScanRecord(now, u, a.isSafe, a.message);
        var t := RecordScan(s, r);
        t.(clients := SendIfOpen(t.clients, id, ScanResult(r)))
  }

  // ---- The whole machine -------------------------------------------------

  datatype Event =
    | PostScan(url: Option<string>, now: int)
    | Connected
    | ReadyStateChanged(id: ClientId, state: ReadyState)
    | Received(id: ClientId, message: Incoming, now: int)

  function Step(env: Env, s: ServerState, e: Event): (s': ServerState)
  {
    match e
    case PostScan(url, now) => HttpScan(env, s, url, now).state
    case Connected => Connect(s)
    case ReadyStateChanged(id, state) => SetReadyState(s, id, state)
    case Received(id, m, now) => Receive(env, s, id, m, now)
  }

  function Run(env: Env, s: ServerState, es: seq<Event>): ServerState
    decreases |es|
  {
    if |es| == 0 then s else Run(env, Step(env, s, es[0]), es[1..])
  }

  /** Every event keeps the state valid. */
  lemma StepPreservesValid(env: Env, s: ServerState, e: Event)
    requires Valid(s)
    ensures Valid(Step(env, s, e))
  {
    match e
    case PostScan(url, now) =>
      if url.Some? && url.value != "" && env.parse(url.value).Some? {
        var v := RouteVerdict(env, url.value, env.parse(url.value).value);
        AppendKeepsBound(s.history, ScanRecord(now, url.value, v.0, v.1));
      }
    case Connected =>
    case ReadyStateChanged(id, state) =>
    case Received(id, m, now) =>
      if IsScanRequest(m) && env.parse(m.url.value).Some? {
        var a := env.analyze(m.url.value);
        AppendKeepsBound(s.history, ScanRecord(now, m.url.value, a.isSafe, a.message));
      }
  }

  /** Every run from the initial state ends in a valid state. */
  lemma {:induction false} RunPreservesValid(env: Env, s: ServerState, es: seq<Event>)
    requires Valid(s)
    ensures Valid(Run(env, s, es))
    decreases |es|
  {
    if |es| > 0 {
      StepPreservesValid(env, s, es[0]);
      RunPreservesValid(env, Step(env, s, es[0]), es[1..]);
    }
  }

  /** What has been sent stays sent: a client never disappears and its outbox only grows at the end. */
  predicate OutboxesGrow(s: ServerState, s': ServerState)
  {
    forall id :: id in s.clients ==> id in s'.clients && s.clients[id].outbox <= s'.clients[id].outbox
  }

  lemma OutboxesGrowTransitive(s: ServerState, t: ServerState, u: ServerState)
    requires OutboxesGrow(s, t) && OutboxesGrow(t, u)
    ensures OutboxesGrow(s, u)
  {
  }

  lemma RecordScanGrows(s: ServerState, r: ScanRecord)
    ensures OutboxesGrow(s, RecordScan(s, r))
  {
  }

  lemma SendIfOpenGrows(s: ServerState, id: ClientId, m: Outbound)
    ensures OutboxesGrow(s, s.(clients := SendIfOpen(s.clients, id, m)))
  {
  }

  lemma ReceiveGrows(env: Env, s: ServerState, id: ClientId, m: Incoming, now: int)
    ensures OutboxesGrow(s, Receive(env, s, id, m, now))
  {
    if IsScanRequest(m) {
      var u := m.url.value;
      if env.parse(u).None? {
        SendIfOpenGrows(s, id, ScanError(WsInvalidUrl));
      } else {
        var a := env.analyze(u);
        var r := ScanRecord(now, u, a.isSafe, a.message);
        var t := RecordScan(s, r);
        RecordScanGrows(s, r);
        SendIfOpenGrows(t, id, ScanResult(r));
        OutboxesGrowTransitive(s, t, t.(clients := SendIfOpen(t.clients, id, ScanResult(r))));
      }
    }
  }

  lemma HttpScanGrows(env: Env, s: ServerState, url: Option<string>, now: int)
    ensures OutboxesGrow(s, HttpScan(env, s, url, now).state)
  {
    if url.Some? && url.value != "" && env.parse(url.value).Some? {
      var v := RouteVerdict(env, url.value, env.parse(url.value).value);
      RecordScanGrows(s, ScanRecord(now, url.value, v.0, v.1));
    }
  }

  lemma StepOutboxesGrow(env: Env, s: ServerState, e: Event)
    requires Valid(s)
    ensures OutboxesGrow(s, Step(env, s, e))
  {
    match e
    case PostScan(url, now) => HttpScanGrows(env, s, url, now);
    case Connected => assert s.nextClient !in s.clients;
    case ReadyStateChanged(id, state) =>
    case Received(id, m, now) => ReceiveGrows(env, s, id, m, now);
  }

  lemma {:induction false} RunOutboxesGrow(env: Env, s: ServerState, es: seq<Event>)
    requires Valid(s)
    ensures OutboxesGrow(s, Run(env, s, es))
    decreases |es|
  {
    if |es| > 0 {
      var s1 := Step(env, s, es[0]);
      StepOutboxesGrow(env, s, es[0]);
      StepPreservesValid(env, s, es[0]);
      RunOutboxesGrow(env, s1, es[1..]);
    }
  }

  /**
    A scan over HTTP reaches every open client as exactly one `new-scan`
    message carrying the stored record, and no message reaches any other client.
   */
  lemma HttpScanBroadcasts(env: Env, s: ServerState, u: string, now: int)
    requires u != "" && env.parse(u).Some?
    ensures var s' := HttpScan(env, s, Some(u), now).state;
      && |s'.history| >= 1 && s'.history[0].url == u && s'.history[0].timestamp == now
      && s'.clients.Keys == s.clients.Keys
      && (forall id :: id in s.clients && s.clients[id].state == Open ==>
            s'.clients[id].outbox == s.clients[id].outbox + [NewScan(s'.history[0])])
      && (forall id :: id in s.clients && s.clients[id].state != Open ==> s'.clients[id] == s.clients[id])
  {
  }

  /**
    A scan over the socket tells the sender twice when it is open, first as
    one of the broadcast's recipients and then with its own `scan-result`.
   */
  lemma SenderHearsTwice(env: Env, s: ServerState, id: ClientId, m: Incoming, now: int)
    requires id in s.clients && s.clients[id].state == Open
    requires IsScanRequest(m) && env.parse(m.url.value).Some?
    ensures var s' := Receive(env, s, id, m, now);
      && |s'.history| >= 1 && s'.history[0].url == m.url.value
      && s'.clients[id].outbox == s.clients[id].outbox + [NewScan(s'.history[0]), ScanResult(s'.history[0])]
  {
    var a := env.analyze(m.url.value);
    SenderOutbox(s, id, ScanRecord(now, m.url.value, a.isSafe, a.message));
  }

  lemma SenderOutbox(s: ServerState, id: ClientId, r: ScanRecord)
    requires id in s.clients && s.clients[id].state == Open
    ensures var t := RecordScan(s, r);
      && t.history[0] == r
      && SendIfOpen(t.clients, id, ScanResult(r))[id].outbox == s.clients[id].outbox + [NewScan(r), ScanResult(r)]
  {
    var t := RecordScan(s, r);
    assert t.clients[id] == s.clients[id].(outbox := s.clients[id].outbox + [NewScan(r)]);
  }

  /**
    When the route's sets and the detector's sets are loaded from the same two
    files, the route's own lookup never changes the verdict: an HTTP scan and a
    socket scan of the same URL store the same `isSafe` and message.
   */
  lemma HttpAgreesWithSocket(legit: FileRead, phish: FileRead, parse: Parser, url: string, p: ParsedUrl)
    requires parse(url) == Some(p)
    ensures var env := Boot(legit, phish, parse);
      RouteVerdict(env, url, p) == (env.analyze(url).isSafe, env.analyze(url).message)
  {
    LoadersAgree(legit, phish, parse);
    var d := LoadDetectorDatasets(legit, phish, parse);
    var a := AnalyzeUrl(d, parse, url);
    assert Boot(legit, phish, parse).analyze(url) == a;
  }

  /** A rejected HTTP request changes nothing and sends nothing. */
  lemma RejectedRequestIsInert(env: Env, s: ServerState, url: Option<string>, now: int)
    requires url.None? || url.value == "" || env.parse(url.value).None?
    ensures HttpScan(env, s, url, now).state == s
    ensures HttpScan(env, s, url, now).response.status == 400
  {
  }
}
