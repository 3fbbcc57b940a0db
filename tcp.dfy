/**
 * The connection manager of the Lumize DMX Engine 2 client: one TCP socket
 * to the controller, a welcome-message handshake, a request call that
 * retries once after a reconnect, and a keep-alive check.
 *
 * The socket is not real I/O. Every socket the client creates talks to the
 * same scripted peer, `peer: seq<Outcome>`: each connect, sendall or recv on
 * a connected socket consumes the next outcome (an exhausted script behaves
 * as a socket error). A call on a socket that is not connected fails without
 * consulting the script, as the operating system would. Every call, with its
 * result, is appended to `log`, so the number of attempts can be counted.
 *
 * This module gives the behaviour as pure functions over a `Link` value
 * (the part of the connection the socket calls change) and proves its
 * properties; class `Connection.TcpConnection` updates its fields step by
 * step and is proved to agree with these functions.
 */
module Tcp {
  import opened Wrappers
  import opened Text

  /** What the controller sends as soon as it accepts a connection. */
  const WelcomeMessage: string := "Lumize DMX Engine v2.0\n"
  const ConnCheckMessage: string := "conncheck"
  const ConnCheckExpectedResponse: string := "ok"
  /** Seconds the client waits for the welcome message. */
  const WelcomeTimeout: nat := 5
  /** The welcome read asks for a little more than the expected message. */
  const WelcomeReadSize: nat := |WelcomeMessage| + 5
  /** Buffer size of the read that follows each request. */
  const ReplyReadSize: nat := 64

  /** What the peer does on the next socket call: deliver bytes, or fail. For connect and sendall only success matters. */
  datatype Outcome = Bytes(data: string) | SocketError

  datatype SocketStatus = Unconnected | Open | Closed

  /** One call on a socket, with its result. */
  datatype Call =
    | Create
    | Connect(connected: bool)
    | SetTimeout(seconds: nat)
    | SendAll(data: string, sent: bool)
    | Recv(maxBytes: nat, received: Option<string>)
    | Close

  datatype CallKind = CreateCall | ConnectCall | SetTimeoutCall | SendCall | RecvCall | CloseCall

  /** The part of a connection that the socket operations change. */
  datatype Link = Link(connected: bool, socket: SocketStatus, peer: seq<Outcome>, log: seq<Call>)

  /** The link after an operation, with the operation's result. */
  datatype Step<T> = Step(link: Link, value: T)

  /** Raised by `request` once its single retry is used up. */
  datatype RequestError = NotConnected

  /** The keep-alive thread object: Python starts a thread at most once and joins only a started one. */
  datatype ThreadState = NotStarted | Started | Joined

  /** How a lifecycle call ends: normally, or with the `RuntimeError` Python's thread object raises. */
  datatype Completion = Completed | RuntimeError

  // ---------------------------------------------------------------------------
  // Counting calls
  // ---------------------------------------------------------------------------

  function KindOf(c: Call): CallKind {
    match c
    case Create => CreateCall
    case Connect(_) => ConnectCall
    case SetTimeout(_) => SetTimeoutCall
    case SendAll(_, _) => SendCall
    case Recv(_, _) => RecvCall
    case Close => CloseCall
  }

  function Kinds(calls: seq<Call>): seq<CallKind> {
    seq(|calls|, i requires 0 <= i < |calls| => KindOf(calls[i]))
  }

  /** How many calls of one kind a log holds. */
  function Count(calls: seq<Call>, k: CallKind): nat {
    multiset(Kinds(calls))[k]
  }

  lemma CountAppend(a: seq<Call>, b: seq<Call>, k: CallKind)
    ensures Count(a + b, k) == Count(a, k) + Count(b, k)
  {
    assert Kinds(a + b) == Kinds(a) + Kinds(b);
  }

  /** The calls `after` made beyond those of `before`. */
  function Added(before: Link, after: Link): seq<Call>
    requires |before.log| <= |after.log|
  {
    after.log[|before.log|..]
  }

  /** `after` extends the log of `before` and keeps everything before it. */
  predicate Extends(before: Link, after: Link) {
    |before.log| <= |after.log| && after.log[..|before.log|] == before.log
  }

  // ---------------------------------------------------------------------------
  // Single socket calls against the scripted peer
  // ---------------------------------------------------------------------------

  function Next(peer: seq<Outcome>): Outcome {
    if peer == [] then SocketError else peer[0]
  }

  function Rest(peer: seq<Outcome>): seq<Outcome> {
    if peer == [] then [] else peer[1..]
  }

  /** `recv(max)` returns at most `max` bytes. */
  function Truncate(data: string, max: nat): (r: string)
    ensures |r| <= max && r <= data
    ensures |data| <= max ==> r == data
  {
    if |data| <= max then data else data[..max]
  }

  /** `socket.socket(AF_INET, SOCK_STREAM)`: a new, unconnected socket. */
  function CreateSocket(l: Link): Link {
    l.(socket := Unconnected, log := l.log + [Create])
  }

  /** `connect((host, port))`. */
  function ConnectSocket(l: Link): Step<bool> {
    var ok := Next(l.peer).Bytes?;
    Step(l.(socket := if ok then Open else l.socket, peer := Rest(l.peer), log := l.log + [Connect(ok)]), ok)
  }

  /** `settimeout(seconds)`. */
  function SetSocketTimeout(l: Link, seconds: nat): Link {
    l.(log := l.log + [SetTimeout(seconds)])
  }

  /** `sendall(data)`. */
  function SendAllSocket(l: Link, data: string): Step<bool> {
    if l.socket != Open then Step(l.(log := l.log + [SendAll(data, false)]), false)
    else
      var ok := Next(l.peer).Bytes?;
      Step(l.(peer := Rest(l.peer), log := l.log + [SendAll(data, ok)]), ok)
  }

  /** `recv(max)`: `None` stands for a raised `socket.error`. */
  function RecvSocket(l: Link, max: nat): Step<Option<string>> {
    if l.socket != Open then Step(l.(log := l.log + [Recv(max, None)]), None)
    else
      var got := match Next(l.peer) case Bytes(d) => Some(Truncate(d, max)) case SocketError => None;
      Step(l.(peer := Rest(l.peer), log := l.log + [Recv(max, got)]), got)
  }

  /** `close()`; closing a closed socket is harmless. */
  function CloseSocket(l: Link): Link {
    l.(socket := Closed, log := l.log + [Close])
  }

  // ---------------------------------------------------------------------------
  // The operations of the connection, as functions of the link
  // ---------------------------------------------------------------------------

  /**
   * `__reconnect`: a fresh socket, connect, a 5-second timeout, one read of
   * the welcome message. Success (the `bool`) and `connected` both hold
   * exactly when the read returned the welcome message; every other ending
   * closes the socket and stands for a raised `ReconnectError`.
   */
  function Reconnect(l: Link): Step<bool> {
    var connect := ConnectSocket(CreateSocket(l));
    if !connect.value then
      Step(CloseSocket(connect.link).(connected := false), false)
    else
      var welcome := RecvSocket(SetSocketTimeout(connect.link, WelcomeTimeout), WelcomeReadSize);
      if welcome.value == Some(WelcomeMessage) then
        Step(welcome.link.(connected := true), true)
      else
        Step(CloseSocket(welcome.link).(connected := false), false)
  }

  /** One send of the request and one read of the reply; `None` stands for a `socket.error`. */
  function Exchange(l: Link, message: string): Step<Option<string>> {
    var send := SendAllSocket(l, message);
    if !send.value then Step(send.link, None)
    else
      var reply := RecvSocket(send.link, ReplyReadSize);
      match reply.value
      case None => Step(reply.link, None)
      case Some(data) => Step(reply.link, Some(Strip(data)))
  }

  /** `request`: try once; on a socket error reconnect once and retry once; otherwise `NotConnected`. */
  function Request(l: Link, message: string): Step<Result<string, RequestError>> {
    var first := Exchange(l, message);
    if first.value.Some? then Step(first.link, Success(first.value.value))
    else
      var reconnect := Reconnect(first.link);
      if !reconnect.value then Step(reconnect.link, Failure(NotConnected))
      else
        var second := Exchange(reconnect.link, message);
        match second.value
        case Some(reply) => Step(second.link, Success(reply))
        case None => Step(second.link, Failure(NotConnected))
  }

  /** Whether the keep-alive check reconnects after a conncheck request ended this way. */
  predicate NeedsReconnect(reply: Result<string, RequestError>) {
    reply.Failure? || reply.value != ConnCheckExpectedResponse
  }

  /** One pass of the body of `__keep_alive`: conncheck, then one reconnect whose failure is swallowed. */
  function KeepAliveRound(l: Link): Link {
    var check := Request(l, ConnCheckMessage);
    if NeedsReconnect(check.value) then Reconnect(check.link).link else check.link
  }

  // ---------------------------------------------------------------------------
  // The handshake invariant: connected only through a welcomed socket
  // ---------------------------------------------------------------------------

  /** The calls made on the current socket: everything after the last `Create`. */
  function CurrentSocket(log: seq<Call>): seq<Call> {
    if log == [] then []
    else if log[|log| - 1] == Create then []
    else CurrentSocket(log[..|log| - 1]) + [log[|log| - 1]]
  }

  /** The calls on a socket start with a successful connect and a read that returned the welcome message. */
  predicate Welcomed(calls: seq<Call>) {
    |calls| >= 3 && calls[0] == Connect(true) && calls[1] == SetTimeout(WelcomeTimeout)
    && calls[2] == Recv(WelcomeReadSize, Some(WelcomeMessage))
  }

  /** `connected` is never true unless the current socket passed the handshake. */
  predicate HandshakeHolds(l: Link) {
    l.connected ==> Welcomed(CurrentSocket(l.log))
  }

  lemma {:induction false} CurrentSocketAppend(log: seq<Call>, tail: seq<Call>)
    requires Create !in tail
    ensures CurrentSocket(log + tail) == CurrentSocket(log) + tail
    decreases |tail|
  {
    if tail != [] {
      var t := tail[..|tail| - 1];
      var c := tail[|tail| - 1];
      assert tail == t + [c];
      assert log + tail == (log + t) + [c];
      assert (log + tail)[..|log + tail| - 1] == log + t;
      assert (log + tail)[|log + tail| - 1] == c;
      assert c != Create;
      CurrentSocketAppend(log, t);
      assert CurrentSocket(log + tail) == CurrentSocket(log + t) + [c];
      assert CurrentSocket(log + t) + [c] == (CurrentSocket(log) + t) + [c];
      assert (CurrentSocket(log) + t) + [c] == CurrentSocket(log) + tail;
    } else {
      assert log + tail == log;
    }
  }

  /** Calls appended without a new socket keep the handshake evidence of the current one. */
  lemma KeepsWelcome(before: Link, after: Link)
    requires HandshakeHolds(before) && Extends(before, after)
    requires after.connected ==> before.connected
    requires Create !in Added(before, after)
    ensures HandshakeHolds(after)
  {
    assert after.log == before.log + Added(before, after);
    CurrentSocketAppend(before.log, Added(before, after));
  }

  // ---------------------------------------------------------------------------
  // Properties of reconnect
  // ---------------------------------------------------------------------------

  /**
   * The handshake accepts exactly when connect succeeds and the welcome read
   * returns the welcome message, byte for byte; the client is connected
   * afterwards exactly then, and the socket is closed otherwise.
   */
  lemma ReconnectAcceptsOnlyWelcome(l: Link)
    ensures var r := Reconnect(l);
      r.value == r.link.connected &&
      (r.value <==> Next(l.peer).Bytes? && Next(Rest(l.peer)) == Bytes(WelcomeMessage)) &&
      r.link.socket == (if r.value then Open else Closed)
  {
    var r := Reconnect(l);
    if Next(l.peer).Bytes? && Next(Rest(l.peer)).Bytes? {
      var d := Next(Rest(l.peer)).data;
      assert |WelcomeMessage| == 23;
      if |d| > WelcomeReadSize {
        assert |Truncate(d, WelcomeReadSize)| == WelcomeReadSize;
      }
    }
  }

  /** A socket error on connect or on the welcome read ends disconnected, with the new socket closed. */
  lemma ReconnectSocketErrors(l: Link)
    requires Next(l.peer) == SocketError || Next(Rest(l.peer)) == SocketError
    ensures var r := Reconnect(l);
      !r.value && !r.link.connected && r.link.socket == Closed
      && Extends(l, r.link) && Added(l, r.link)[|Added(l, r.link)| - 1] == Close
  {
  }

  /** The log grows by exactly `calls`. */
  lemma Appended(before: Link, after: Link, calls: seq<Call>)
    requires after.log == before.log + calls
    ensures Extends(before, after) && Added(before, after) == calls
  {
  }

  /** The welcome read of a reconnect, when connect succeeded. */
  function WelcomeRead(l: Link): Step<Option<string>> {
    RecvSocket(SetSocketTimeout(ConnectSocket(CreateSocket(l)).link, WelcomeTimeout), WelcomeReadSize)
  }

  lemma ReconnectAdded(l: Link)
    ensures var r := Reconnect(l);
      var ok1 := Next(l.peer).Bytes?;
      Extends(l, r.link) &&
      Added(l, r.link) == ReconnectTrace(ok1, WelcomeRead(l).value, r.value)
  {
    var r := Reconnect(l);
    var ok1 := Next(l.peer).Bytes?;
    if !ok1 {
      Appended(l, r.link, [Create, Connect(false), Close]);
    } else if r.value {
      Appended(l, r.link, [Create, Connect(true), SetTimeout(WelcomeTimeout), Recv(WelcomeReadSize, WelcomeRead(l).value)]);
    } else {
      Appended(l, r.link, [Create, Connect(true), SetTimeout(WelcomeTimeout), Recv(WelcomeReadSize, WelcomeRead(l).value), Close]);
    }
  }

  /** The calls of a reconnect, as `ReconnectAdded` lists them. */
  function ReconnectTrace(connected: bool, welcome: Option<string>, accepted: bool): seq<Call> {
    [Create, Connect(connected)]
      + (if connected then [SetTimeout(WelcomeTimeout), Recv(WelcomeReadSize, welcome)] else [])
      + (if accepted then [] else [Close])
  }

  /** A log of two calls, counted by kind. */
  lemma CountPair(a: Call, b: Call, k: CallKind)
    ensures Count([a, b], k) == (if KindOf(a) == k then 1 else 0) + (if KindOf(b) == k then 1 else 0)
  {
    assert Kinds([a, b]) == [KindOf(a)] + [KindOf(b)];
  }

  lemma CountSingle(a: Call, k: CallKind)
    ensures Count([a], k) == if KindOf(a) == k then 1 else 0
  {
    assert Kinds([a]) == [KindOf(a)];
  }

  /** The calls of a reconnect of one kind: the create and the connect, the timeout and the read once connected, the close when refused. */
  lemma ReconnectTraceCount(connected: bool, welcome: Option<string>, accepted: bool, k: CallKind)
    ensures Count(ReconnectTrace(connected, welcome, accepted), k) ==
      (if k == CreateCall || k == ConnectCall then 1 else 0) +
      (if connected && (k == SetTimeoutCall || k == RecvCall) then 1 else 0) +
      (if !accepted && k == CloseCall then 1 else 0)
  {
    var head := [Create, Connect(connected)];
    var read := if connected then [SetTimeout(WelcomeTimeout), Recv(WelcomeReadSize, welcome)] else [];
    var close := if accepted then [] else [Close];
    CountAppend(head + read, close, k);
    CountAppend(head, read, k);
    CountPair(Create, Connect(connected), k);
    if connected {
      CountPair(SetTimeout(WelcomeTimeout), Recv(WelcomeReadSize, welcome), k);
    }
    if !accepted {
      CountSingle(Close, k);
    }
  }

  lemma ReconnectTraceCounts(connected: bool, welcome: Option<string>, accepted: bool)
    ensures var t := ReconnectTrace(connected, welcome, accepted);
      Count(t, CreateCall) == 1 && Count(t, ConnectCall) == 1 && Count(t, SendCall) == 0 &&
      Count(t, RecvCall) <= 1 && Count(t, CloseCall) == (if accepted then 0 else 1)
  {
    ReconnectTraceCount(connected, welcome, accepted, CreateCall);
    ReconnectTraceCount(connected, welcome, accepted, ConnectCall);
    ReconnectTraceCount(connected, welcome, accepted, SendCall);
    ReconnectTraceCount(connected, welcome, accepted, RecvCall);
    ReconnectTraceCount(connected, welcome, accepted, CloseCall);
  }

  /**
   * A reconnect makes exactly one connect attempt on one new socket, sends
   * nothing, reads at most once, closes the socket exactly when it fails,
   * and consumes at most two outcomes of the peer.
   */
  lemma ReconnectCalls(l: Link)
    ensures var r := Reconnect(l);
      Extends(l, r.link) &&
      Count(Added(l, r.link), CreateCall) == 1 &&
      Count(Added(l, r.link), ConnectCall) == 1 &&
      Count(Added(l, r.link), SendCall) == 0 &&
      Count(Added(l, r.link), RecvCall) <= 1 &&
      Count(Added(l, r.link), CloseCall) == (if r.value then 0 else 1) &&
      |l.peer| - 2 <= |r.link.peer| <= |l.peer|
  {
    var r := Reconnect(l);
    ReconnectAdded(l);
    ReconnectTraceCounts(Next(l.peer).Bytes?, WelcomeRead(l).value, r.value);
  }

  /** The only read of a reconnect asks for `len(WELCOME_MESSAGE) + 5` bytes. */
  lemma ReconnectReadSize(l: Link)
    ensures var r := Reconnect(l);
      Extends(l, r.link) &&
      forall i :: 0 <= i < |Added(l, r.link)| && Added(l, r.link)[i].Recv? ==> Added(l, r.link)[i].maxBytes == WelcomeReadSize
  {
    ReconnectAdded(l);
  }

  lemma ReconnectKeepsValid(l: Link)
    ensures HandshakeHolds(Reconnect(l).link)
  {
    var r := Reconnect(l);
    if r.value {
      var w := RecvSocket(SetSocketTimeout(ConnectSocket(CreateSocket(l)).link, WelcomeTimeout), WelcomeReadSize);
      var tail := [Connect(true), SetTimeout(WelcomeTimeout), Recv(WelcomeReadSize, Some(WelcomeMessage))];
      assert r.link.log == (l.log + [Create]) + tail;
      CurrentSocketAppend(l.log + [Create], tail);
      assert CurrentSocket(l.log + [Create]) == [];
    }
  }

  // ---------------------------------------------------------------------------
  // Properties of request
  // ---------------------------------------------------------------------------

  /** The calls of one exchange: the send, then the read if the send went through. */
  function ExchangeTrace(message: string, sent: bool, reply: Option<string>): seq<Call> {
    [SendAll(message, sent)] + (if sent then [Recv(ReplyReadSize, reply)] else [])
  }

  lemma ExchangeTraceCounts(message: string, sent: bool, reply: Option<string>)
    ensures var t := ExchangeTrace(message, sent, reply);
      Create !in t && Count(t, SendCall) == 1 && Count(t, ConnectCall) == 0
  {
    var t := ExchangeTrace(message, sent, reply);
    assert Kinds(t) == [SendCall] + (if sent then [RecvCall] else []);
  }

  /** One exchange sends once, never reconnects, keeps the socket and the flag, and returns a stripped reply of at most 64 characters. */
  lemma ExchangeCalls(l: Link, message: string)
    ensures var e := Exchange(l, message);
      Extends(l, e.link) && e.link.connected == l.connected && e.link.socket == l.socket &&
      Create !in Added(l, e.link) &&
      Count(Added(l, e.link), SendCall) == 1 && Count(Added(l, e.link), ConnectCall) == 0 &&
      (e.value.Some? ==> Strip(e.value.value) == e.value.value && |e.value.value| <= ReplyReadSize)
  {
    var e := Exchange(l, message);
    var s := SendAllSocket(l, message);
    var rr := RecvSocket(s.link, ReplyReadSize);
    if !s.value {
      Appended(l, e.link, ExchangeTrace(message, false, rr.value));
    } else {
      Appended(l, e.link, ExchangeTrace(message, true, rr.value));
      if rr.value.Some? {
        StripIdempotent(rr.value.value);
      }
    }
    ExchangeTraceCounts(message, s.value, rr.value);
  }

  /** Counts over a log grown in two stages add up. */
  lemma CountThrough(a: Link, b: Link, c: Link, k: CallKind)
    requires Extends(a, b) && Extends(b, c)
    ensures Extends(a, c) && Count(Added(a, c), k) == Count(Added(a, b), k) + Count(Added(b, c), k)
  {
    assert Added(a, c) == Added(a, b) + Added(b, c);
    CountAppend(Added(a, b), Added(b, c), k);
  }

  /** If the first send and read succeed, `request` returns the stripped reply and never reconnects. */
  lemma RequestFirstTry(l: Link, message: string)
    requires Exchange(l, message).value.Some?
    ensures var r := Request(l, message);
      r.value == Success(Exchange(l, message).value.value) &&
      Strip(r.value.value) == r.value.value &&
      Extends(l, r.link) &&
      Count(Added(l, r.link), ConnectCall) == 0 && Count(Added(l, r.link), SendCall) == 1
  {
    ExchangeCalls(l, message);
  }

  /**
   * The attempts of `request`: one or two sends, and a reconnect exactly
   * when the first attempt fails.
   */
  lemma RequestCalls(l: Link, message: string)
    ensures var r := Request(l, message);
      Extends(l, r.link) &&
      1 <= Count(Added(l, r.link), SendCall) <= 2 &&
      Count(Added(l, r.link), ConnectCall) == (if Exchange(l, message).value.Some? then 0 else 1)
  {
    var r := Request(l, message);
    var first := Exchange(l, message);
    ExchangeCalls(l, message);
    if first.value.None? {
      var rc := Reconnect(first.link);
      ReconnectCalls(first.link);
      CountThrough(l, first.link, rc.link, SendCall);
      CountThrough(l, first.link, rc.link, ConnectCall);
      if rc.value {
        var second := Exchange(rc.link, message);
        ExchangeCalls(rc.link, message);
        CountThrough(l, rc.link, second.link, SendCall);
        CountThrough(l, rc.link, second.link, ConnectCall);
      }
    }
  }

  /**
   * The outcome of `request`: `NotConnected` exactly when the first attempt
   * fails and then the reconnect or the single retry fails; a returned reply
   * is stripped of whitespace.
   */
  lemma RequestOutcome(l: Link, message: string)
    ensures var r := Request(l, message);
      var first := Exchange(l, message);
      var reconnect := Reconnect(first.link);
      (r.value.Failure? <==>
        first.value.None? && (!reconnect.value || Exchange(reconnect.link, message).value.None?)) &&
      (r.value.Success? ==> Strip(r.value.value) == r.value.value && |r.value.value| <= ReplyReadSize)
  {
    var first := Exchange(l, message);
    ExchangeCalls(l, message);
    if first.value.None? {
      ExchangeCalls(Reconnect(first.link).link, message);
    }
  }

  lemma RequestKeepsValid(l: Link, message: string)
    requires HandshakeHolds(l)
    ensures HandshakeHolds(Request(l, message).link)
  {
    var first := Exchange(l, message);
    ExchangeCalls(l, message);
    KeepsWelcome(l, first.link);
    if first.value.None? {
      var rc := Reconnect(first.link);
      ReconnectKeepsValid(first.link);
      if rc.value {
        ExchangeCalls(rc.link, message);
        KeepsWelcome(rc.link, Exchange(rc.link, message).link);
      }
    }
  }

  // ---------------------------------------------------------------------------
  // Properties of the keep-alive check
  // ---------------------------------------------------------------------------

  /**
   * One keep-alive pass makes one conncheck request and, on top of the
   * request's own reconnects, exactly one more reconnect attempt when the reply
   * is not `ok` or the request raised `NotConnected`, and none when it is `ok`.
   */
  lemma KeepAliveRoundReconnects(l: Link)
    ensures var check := Request(l, ConnCheckMessage);
      var after := KeepAliveRound(l);
      Extends(l, check.link) && Extends(check.link, after) &&
      Count(Added(check.link, after), ConnectCall) == (if check.value == Success(ConnCheckExpectedResponse) then 0 else 1) &&
      Count(Added(check.link, after), SendCall) == 0 &&
      1 <= Count(Added(l, after), SendCall) <= 2 &&
      Count(Added(l, after), ConnectCall) <= 2
  {
    var check := Request(l, ConnCheckMessage);
    var after := KeepAliveRound(l);
    RequestCalls(l, ConnCheckMessage);
    if NeedsReconnect(check.value) {
      ReconnectCalls(check.link);
    } else {
      Appended(check.link, after, []);
      assert Kinds([]) == [];
    }
    CountThrough(l, check.link, after, SendCall);
    CountThrough(l, check.link, after, ConnectCall);
  }

  lemma KeepAliveRoundKeepsValid(l: Link)
    requires HandshakeHolds(l)
    ensures HandshakeHolds(KeepAliveRound(l))
  {
    var check := Request(l, ConnCheckMessage);
    RequestKeepsValid(l, ConnCheckMessage);
    if NeedsReconnect(check.value) {
      ReconnectKeepsValid(check.link);
    }
  }
}
