/**
 * `TcpConnection` of tcp.py as a class: the flags `running` and
 * `isConnected`, the keep-alive thread object, the current socket and the
 * scripted peer behind it. Each method updates the fields step by step, as
 * the Python code does, and its postcondition ties the new state to the
 * functions of module `Tcp`, whose properties are proved there.
 */
module Connection {
  import opened Wrappers
  import opened Text
  import opened Tcp

  class TcpConnection {
    const host: string
    const port: int
    /** Seconds between keep-alive checks; 0 disables them. */
    const keepAliveInterval: int
    const runKeepAlive: bool

    var running: bool
    var keepAliveThread: ThreadState
    var isConnected: bool
    var socket: SocketStatus
    /** What the controller will do on the coming socket calls. */
    var peer: seq<Outcome>
    /** Every socket call made so far, with its result. */
    var log: seq<Call>

    /** The fields the socket calls change, as one value. */
    function State(): Link
      reads this
    {
      Link(isConnected, socket, peer, log)
    }

    /** Connected only through a welcomed socket; a keep-alive thread exists only when keep-alive is enabled. */
    ghost predicate Valid()
      reads this
    {
      HandshakeHolds(State()) && (keepAliveThread != NotStarted ==> runKeepAlive)
    }

    /** `__init__`: running, not connected, one fresh unconnected socket, keep-alive enabled iff the interval is positive. */
    constructor (host: string, port: int, keepAlive: int, peer: seq<Outcome>)
      ensures Valid()
      ensures this.host == host && this.port == port && keepAliveInterval == keepAlive
      ensures runKeepAlive == (keepAlive > 0)
      ensures running && !isConnected && keepAliveThread == NotStarted
      ensures socket == Unconnected && this.peer == peer && log == [Create]
    {
      this.host := host;
      this.port := port;
      keepAliveInterval := keepAlive;
      runKeepAlive := keepAlive > 0;
      running := true;
      isConnected := false;
      keepAliveThread := NotStarted;
      socket := Unconnected;
      this.peer := peer;
      log := [Create];
    }

    // -------------------------------------------------------------------------
    // Socket calls against the scripted peer
    // -------------------------------------------------------------------------

    method TakeOutcome() returns (outcome: Outcome)
      modifies this`peer
      ensures outcome == Next(old(peer)) && peer == Rest(old(peer))
    {
      if peer == [] {
        outcome := SocketError;
      } else {
        outcome := peer[0];
        peer := peer[1..];
      }
    }

    method SocketCreate()
      modifies this`socket, this`log
      ensures State() == CreateSocket(old(State()))
    {
      socket := Unconnected;
      log := log + [Create];
    }

    method SocketConnect() returns (connected: bool)
      modifies this`socket, this`peer, this`log
      ensures Step(State(), connected) == ConnectSocket(old(State()))
    {
      var outcome := TakeOutcome();
      connected := outcome.Bytes?;
      if connected {
        socket := Open;
      }
      log := log + [Connect(connected)];
    }

    method SocketSetTimeout(seconds: nat)
      modifies this`log
      ensures State() == SetSocketTimeout(old(State()), seconds)
    {
      log := log + [SetTimeout(seconds)];
    }

    method SocketSendAll(data: string) returns (sent: bool)
      modifies this`peer, this`log
      ensures Step(State(), sent) == SendAllSocket(old(State()), data)
    {
      sent := false;
      if socket == Open {
        var outcome := TakeOutcome();
        sent := outcome.Bytes?;
      }
      log := log + [SendAll(data, sent)];
    }

    method SocketRecv(maxBytes: nat) returns (received: Option<string>)
      modifies this`peer, this`log
      ensures Step(State(), received) == RecvSocket(old(State()), maxBytes)
    {
      received := None;
      if socket == Open {
        var outcome := TakeOutcome();
        if outcome.Bytes? {
          received := Some(Truncate(outcome.data, maxBytes));
        }
      }
      log := log + [Recv(maxBytes, received)];
    }

    method SocketClose()
      modifies this`socket, this`log
      ensures State() == CloseSocket(old(State()))
    {
      socket := Closed;
      log := log + [Close];
    }

    // -------------------------------------------------------------------------
    // The connection's operations
    // -------------------------------------------------------------------------

    /** `__reconnect`; `accepted == false` stands for the raised `ReconnectError`. */
    method Reconnect() returns (accepted: bool)
      requires Valid()
      modifies this`isConnected, this`socket, this`peer, this`log
      ensures Valid()
      ensures Step(State(), accepted) == Tcp.Reconnect(old(State()))
    {
      ReconnectKeepsValid(State());
      SocketCreate();
      var connected := SocketConnect();
      if !connected {
        SocketClose();
        isConnected := false;
        return false;
      }
      SocketSetTimeout(WelcomeTimeout);
      var received := SocketRecv(WelcomeReadSize);
      if received == Some(WelcomeMessage) {
        isConnected := true;
        accepted := true;
      } else {
        SocketClose();
        isConnected := false;
        accepted := false;
      }
    }

    /** One `sendall` of the request and one `recv(64)` of the reply, stripped; `None` stands for a `socket.error`. */
    method Attempt(message: string) returns (reply: Option<string>)
      modifies this`peer, this`log
      ensures Step(State(), reply) == Exchange(old(State()), message)
    {
      var sent := SocketSendAll(message);
      if !sent {
        return None;
      }
      var data := SocketRecv(ReplyReadSize);
      reply := if data.Some? then Some(Strip(data.value)) else None;
    }

    /** `request`: first try, then one reconnect and one retry, then `NotConnected`. */
    method Request(message: string) returns (response: Result<string, RequestError>)
      requires Valid()
      modifies this`isConnected, this`socket, this`peer, this`log
      ensures Valid()
      ensures Step(State(), response) == Tcp.Request(old(State()), message)
    {
      RequestKeepsValid(State(), message);
      var first := Attempt(message);
      if first.Some? {
        return Success(first.value);
      }
      ExchangeCalls(old(State()), message);
      KeepsWelcome(old(State()), State());
      var accepted := Reconnect();
      if !accepted {
        return Failure(NotConnected);
      }
      var second := Attempt(message);
      if second.Some? {
        return Success(second.value);
      }
      return Failure(NotConnected);
    }

    /** `start`: one reconnect attempt whose failure is swallowed, then the keep-alive thread when enabled. */
    method Start() returns (completion: Completion)
      requires Valid()
      modifies this`isConnected, this`socket, this`peer, this`log, this`keepAliveThread
      ensures Valid()
      ensures State() == Tcp.Reconnect(old(State())).link
      ensures completion == (if runKeepAlive && old(keepAliveThread) != NotStarted then RuntimeError else Completed)
      ensures keepAliveThread == (if runKeepAlive && old(keepAliveThread) == NotStarted then Started else old(keepAliveThread))
    {
      var _ := Reconnect();
      if runKeepAlive {
        if keepAliveThread != NotStarted {
          return RuntimeError;
        }
        keepAliveThread := Started;
      }
      return Completed;
    }

    /**
     * `stop`: clear `running`; when keep-alive is enabled, wake and join the
     * thread (joining a thread never started raises `RuntimeError`); then
     * close the socket. The connected flag is left as it was.
     */
    method Stop() returns (completion: Completion)
      requires Valid()
      modifies this`running, this`keepAliveThread, this`socket, this`log
      ensures Valid() && !running
      ensures completion == (if runKeepAlive && old(keepAliveThread) == NotStarted then RuntimeError else Completed)
      ensures completion == RuntimeError ==> State() == old(State()) && keepAliveThread == old(keepAliveThread)
      ensures completion == Completed ==>
        State() == CloseSocket(old(State())) &&
        keepAliveThread == (if runKeepAlive then Joined else old(keepAliveThread))
    {
      running := false;
      if runKeepAlive {
        if keepAliveThread == NotStarted {
          return RuntimeError;
        }
        keepAliveThread := Joined;
      }
      KeepsWelcome(State(), CloseSocket(State()));
      SocketClose();
      return Completed;
    }

    /** `is_ok`: the connected flag, read without any socket call. */
    method IsOk() returns (ok: bool)
      ensures ok == isConnected
    {
      return isConnected;
    }

    /**
     * One pass of the `__keep_alive` loop: if still running, a conncheck
     * request; a reply other than `ok`, or `NotConnected`, leads to one
     * reconnect whose `ReconnectError` is swallowed.
     */
    method KeepAliveIteration() returns (checked: bool)
      requires Valid() && keepAliveThread == Started
      modifies this`isConnected, this`socket, this`peer, this`log
      ensures Valid()
      ensures checked == running
      ensures State() == if running then KeepAliveRound(old(State())) else old(State())
    {
      if !running {
        return false;
      }
      var response := Request(ConnCheckMessage);
      match response {
        case Success(reply) =>
          if reply != ConnCheckExpectedResponse {
            var _ := Reconnect();
          }
        case Failure(NotConnected) =>
          var _ := Reconnect();
      }
      return true;
    }
  }
}
