/**
 * The public API of ldmxe2.py: a light handle per channel, which turns the
 * channel on and off and reads its state through the shared connection, and
 * the engine, which owns the connection and hands out light handles for the
 * channels 0 to 511.
 */
module Ldmxe2 {
  import opened Wrappers
  import opened Text
  import opened Tcp
  import opened Connection
  import opened Commands

  /** Keep-alive interval of an engine built without one: keep-alive off. */
  const KeepAliveDefault: int := 0

  datatype EngineError = WrongChannel

  /** `LumizeDMXEngine2Light`: a channel number and the connection it talks through. */
  datatype Light = Light(connection: TcpConnection, channel: int) {

    /**
     * `turn_on`: send the `on` line for this channel; true when the reply is
     * `ok`, `SendError` for any other reply and when the request ends in
     * `NotConnected`.
     */
    method TurnOn(brightness: Option<int>, transition: Option<int>) returns (r: Result<bool, LightError>)
      requires connection.Valid()
      modifies connection`isConnected, connection`socket, connection`peer, connection`log
      ensures connection.Valid()
      ensures var step := Tcp.Request(old(connection.State()), TurnOnMessage(channel, brightness, transition));
        connection.State() == step.link && r == Acknowledge(step.value)
    {
      var message := TurnOnMessage(channel, brightness, transition);
      var response := connection.Request(message);
      r := Acknowledge(response);
    }

    /** `turn_off`: send the `off` line for this channel; the reply is judged as for `turn_on`. */
    method TurnOff(transition: Option<int>) returns (r: Result<bool, LightError>)
      requires connection.Valid()
      modifies connection`isConnected, connection`socket, connection`peer, connection`log
      ensures connection.Valid()
      ensures var step := Tcp.Request(old(connection.State()), TurnOffMessage(channel, transition));
        connection.State() == step.link && r == Acknowledge(step.value)
    {
      var message := TurnOffMessage(channel, transition);
      var response := connection.Request(message);
      r := Acknowledge(response);
    }

    /** `get_state`: send `sreq` for this channel and parse the reply; `NotConnected` becomes `SendError`. */
    method GetState() returns (r: Result<LightState, LightError>)
      requires connection.Valid()
      modifies connection`isConnected, connection`socket, connection`peer, connection`log
      ensures connection.Valid()
      ensures var step := Tcp.Request(old(connection.State()), StateRequestMessage(channel));
        connection.State() == step.link && r == StateResult(channel, step.value)
    {
      var message := StateRequestMessage(channel);
      var response := connection.Request(message);
      match response {
        case Failure(NotConnected) => return Failure(SendError);
        case Success(reply) => return ParseState(channel, reply);
      }
    }

    /** `is_available`: the connection's `is_ok`, with no socket call. */
    method IsAvailable() returns (ok: bool)
      ensures ok == connection.isConnected
    {
      ok := connection.IsOk();
    }
  }

  /**
   * A command is acknowledged exactly when the request's reply is `ok`; the
   * request strips the reply already, so stripping it again changes nothing.
   */
  lemma AcknowledgeRequest(l: Link, message: string)
    ensures var response := Tcp.Request(l, message).value;
      Acknowledge(response) == if response == Success("ok") then Success(true) else Failure(SendError)
  {
    RequestOutcome(l, message);
  }

  /** `get_state` answers with a state only when the request got through and the reply is a status line. */
  lemma StateRequestOutcome(l: Link, channel: int)
    ensures var response := Tcp.Request(l, StateRequestMessage(channel)).value;
      var r := StateResult(channel, response);
      r.Success? ==> response.Success? && |response.value| >= 5 && response.value[..5] == "sres,"
  {
    var response := Tcp.Request(l, StateRequestMessage(channel)).value;
    RequestOutcome(l, StateRequestMessage(channel));
    if StateResult(channel, response).Success? {
      ParseStateNeedsStatusReply(channel, response.value);
    }
  }

  /** `LumizeDMXEngine2`: the engine owns one connection, shared by all its light handles. */
  class Engine {
    const connection: TcpConnection

    /** `__init__`: a new connection, not yet started, with the given keep-alive interval (default off). */
    constructor (host: string, port: int, peer: seq<Outcome>, keepAlive: int := KeepAliveDefault)
      ensures fresh(connection) && connection.Valid()
      ensures connection.host == host && connection.port == port && connection.keepAliveInterval == keepAlive
      ensures connection.runKeepAlive == (keepAlive > 0)
      ensures connection.running && connection.keepAliveThread == NotStarted
      ensures connection.State() == Link(false, Unconnected, peer, [Create])
    {
      connection := new TcpConnection(host, port, keepAlive, peer);
    }

    /** `start`: the connection's `start`. */
    method Start() returns (completion: Completion)
      requires connection.Valid()
      modifies connection`isConnected, connection`socket, connection`peer, connection`log, connection`keepAliveThread
      ensures connection.Valid()
      ensures connection.State() == Tcp.Reconnect(old(connection.State())).link
      ensures completion == (if connection.runKeepAlive && old(connection.keepAliveThread) != NotStarted then RuntimeError else Completed)
      ensures connection.keepAliveThread ==
        (if connection.runKeepAlive && old(connection.keepAliveThread) == NotStarted then Started else old(connection.keepAliveThread))
    {
      completion := connection.Start();
    }

    /**
     * `stop` as ldmxe2.py writes it: the connection's `start`, then, unless
     * that raised, its `stop`. Every stop first reconnects; after a start
     * with keep-alive on, the second thread start raises `RuntimeError`
     * and the connection is never stopped.
     */
    method StopAsWritten() returns (completion: Completion)
      requires connection.Valid()
      modifies connection`running, connection`keepAliveThread, connection`isConnected, connection`socket, connection`peer, connection`log
      ensures connection.Valid()
      ensures var reconnected := Tcp.Reconnect(old(connection.State())).link;
        if connection.runKeepAlive && old(connection.keepAliveThread) != NotStarted then
          completion == RuntimeError && connection.running == old(connection.running) &&
          connection.keepAliveThread == old(connection.keepAliveThread) && connection.State() == reconnected
        else
          completion == Completed && !connection.running && connection.State() == CloseSocket(reconnected) &&
          connection.keepAliveThread == (if connection.runKeepAlive then Joined else old(connection.keepAliveThread))
    {
      completion := connection.Start();
      if completion == Completed {
        completion := connection.Stop();
      }
    }

    /** `stop` as intended: the connection's `stop` alone. */
    method Stop() returns (completion: Completion)
      requires connection.Valid()
      modifies connection`running, connection`keepAliveThread, connection`socket, connection`log
      ensures connection.Valid() && !connection.running
      ensures completion == (if connection.runKeepAlive && old(connection.keepAliveThread) == NotStarted then RuntimeError else Completed)
      ensures completion == RuntimeError ==>
        connection.State() == old(connection.State()) && connection.keepAliveThread == old(connection.keepAliveThread)
      ensures completion == Completed ==>
        connection.State() == CloseSocket(old(connection.State())) &&
        connection.keepAliveThread == (if connection.runKeepAlive then Joined else old(connection.keepAliveThread))
    {
      completion := connection.Stop();
    }

    /** `get_light_entity`: a handle on this engine's connection for a channel 0 to 511, `WrongChannel` for any other. */
    function GetLightEntity(channel: int): (r: Result<Light, EngineError>)
      ensures r.Failure? <==> !(0 <= channel < ChannelCount)
      ensures r.Failure? ==> r.error == WrongChannel
      ensures r.Success? ==> r.value.channel == channel && r.value.connection == connection
    {
      if channel < 0 || channel >= ChannelCount then Failure(WrongChannel)
      else Success(Light(connection, channel))
    }
  }

  // ---------------------------------------------------------------------------
  // The effect of the stray `start()` in `stop`
  // ---------------------------------------------------------------------------

  /** Closing the socket after some calls adds one close and nothing else to them. */
  lemma CloseAfter(l: Link, m: Link, k: CallKind)
    requires Extends(l, m)
    ensures Extends(l, CloseSocket(m))
    ensures Count(Added(l, CloseSocket(m)), k) == Count(Added(l, m), k) + (if k == CloseCall then 1 else 0)
  {
    assert Added(l, CloseSocket(m)) == Added(l, m) + [Close];
    CountAppend(Added(l, m), [Close], k);
    CountSingle(Close, k);
  }

  /** As written, stopping opens one new connection to the controller before closing it. */
  lemma StopAsWrittenConnects(l: Link)
    ensures var after := CloseSocket(Tcp.Reconnect(l).link);
      Extends(l, after) && Count(Added(l, after), ConnectCall) == 1 && Count(Added(l, after), CloseCall) >= 1
  {
    var m := Tcp.Reconnect(l).link;
    ReconnectCalls(l);
    CloseAfter(l, m, ConnectCall);
    CloseAfter(l, m, CloseCall);
  }

  /** As intended, stopping makes no connection: its only socket call is the close. */
  lemma StopMakesNoConnection(l: Link)
    ensures var after := CloseSocket(l);
      Extends(l, after) && Added(l, after) == [Close] && Count(Added(l, after), ConnectCall) == 0
  {
  }

  /** As written, an engine started with keep-alive on cannot be stopped: `stop` raises `RuntimeError` and the connection keeps running. */
  method StartThenStopAsWritten(host: string, port: int, peer: seq<Outcome>, keepAlive: int) returns (completion: Completion, stillRunning: bool)
    requires keepAlive > 0
    ensures completion == RuntimeError && stillRunning
  {
    var engine := new Engine(host, port, peer, keepAlive);
    var _ := engine.Start();
    completion := engine.StopAsWritten();
    stillRunning := engine.connection.running;
  }

  /** As intended, an engine that was started stops cleanly, with or without keep-alive. */
  method StartThenStop(host: string, port: int, peer: seq<Outcome>, keepAlive: int) returns (completion: Completion, stillRunning: bool)
    ensures completion == Completed && !stillRunning
  {
    var engine := new Engine(host, port, peer, keepAlive);
    var _ := engine.Start();
    completion := engine.Stop();
    stillRunning := engine.connection.running;
  }
}
