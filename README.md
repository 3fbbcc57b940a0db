# Lumize DMX Engine 2 client, modelled in Dafny

This project models the core of the Python client for the Lumize DMX Engine 2
lighting controller. The model has two layers:

- **The channel commands** of `LumizeDMXEngine2Light` and the channel check of
  `LumizeDMXEngine2.get_light_entity`, in ldmxe2/ldmxe2.py. The command code is
  pure, so it is modelled as functions over strings:
  - the wire lines `on,<ch>[,b<br>][,t<ms>]`, `off,<ch>[,t<ms>]` and `sreq,<ch>`;
  - the `ok` acknowledgement;
  - the parser of `sres,<ch>,<flag>-<brightness>` replies.

  Each encoder is paired with `Commands.Decode`, a reading of the command
  grammar: comma-separated fields, the keyword first, the channel read with
  Python's `int()` rules, then optional fields tagged `b` and `t`. Each
  encoder is proved to round-trip through it. The
  state-reply parser is paired with `Commands.StateReplyMessage`, which
  writes a state out in the reply format. The light handle is a datatype
  (`Ldmxe2.Light`). Its methods make the request on the shared connection and
  map the reply through those functions.
- **The connection manager**, `TcpConnection` in ldmxe2/tcp.py. It is a class
  (`Connection.TcpConnection`) with the fields Python updates in place:
  - `running` and `isConnected`;
  - the keep-alive thread object;
  - the current socket.

  The real socket is replaced by a scripted peer, `peer: seq<Outcome>`. Each
  `connect`, `sendall` or `recv` on a connected socket takes the next outcome
  from the script: `Bytes(data)` or `SocketError`. An exhausted script
  behaves as a socket error. Every socket call is appended to `log`, so the
  lemmas can count attempts. Module `Tcp` gives each operation as a function
  of a `Link` value and proves its properties. Each method of the class is
  proved to produce exactly the state that function gives.

Python's `str.strip()`, `str.split(sep)`, `str(n)` and `int(s)` are modelled
over ASCII text in module `Text`. The exceptions are modelled as follows:

| Python | Dafny |
|---|---|
| `ReconnectError` | `accepted == false` |
| `NotConnected` | `Tcp.RequestError` |
| `SendError`, and the `ValueError` and `IndexError` that `get_state` lets escape | `Commands.LightError` |
| `WrongChannel` | `Ldmxe2.EngineError` |
| `RuntimeError` from a thread started twice or joined before it started | `Tcp.Completion.RuntimeError` |

Four behaviours of the code that a reader might not expect are modelled as
written:

- **A malformed state field.** For the reply `sres,7,xyz` on channel 7,
  `get_state` lets Python's `ValueError` escape from `int("xyz")`
  (ldmxe2/ldmxe2.py:91). It does not raise `SendError`.
  `Commands.MalformedStateExample` states this outcome.
- **A failed retry after a successful reconnect.** If `request` reconnects
  and then its retry fails, the connected flag stays true. After
  `__init__` sets it to false (ldmxe2/tcp.py:46), only `__reconnect` writes
  the flag (ldmxe2/tcp.py:113, 120, 127).
- **`stop` and the connected flag.** `stop` does not clear the connected flag
  (ldmxe2/tcp.py:66-84).
- **`stop` before `start`.** With keep-alive on, `stop` called before `start`
  joins a thread that was never started, so Python raises `RuntimeError`
  (ldmxe2/tcp.py:76). `Connection.TcpConnection.Stop` returns that outcome.

## Model

| member | source | states |
|---|---|---|
| Ldmxe2.Engine.GetLightEntity | ldmxe2/ldmxe2.py:137-144 | `WrongChannel` exactly when the channel is below 0 or at least 512; otherwise a handle with that channel on the engine's own connection |
| Ldmxe2.Engine.constructor | ldmxe2/ldmxe2.py:109-126 | a fresh connection with the given host, port and keep-alive interval; keep-alive is enabled iff the interval is positive, and the interval defaults to 0 |
| Ldmxe2.Engine.Start | ldmxe2/ldmxe2.py:128-130 | exactly the connection's `start`: one reconnect, and the keep-alive thread started when enabled |
| Ldmxe2.Light.TurnOn | ldmxe2/ldmxe2.py:25-46 | sends exactly `TurnOnMessage` through one `request`; the connection ends in the request's state, and the result is the acknowledgement of the request's reply |
| Ldmxe2.Light.TurnOff | ldmxe2/ldmxe2.py:48-67 | sends exactly `TurnOffMessage` through one `request`; the result is the acknowledgement of the reply |
| Ldmxe2.Light.GetState | ldmxe2/ldmxe2.py:69-99 | sends exactly `sreq,<channel>` through one `request`; the result is the parse of the reply, or `SendError` on `NotConnected` |
| Ldmxe2.Light.IsAvailable | ldmxe2/ldmxe2.py:101-103 | returns the connection's connected flag and changes nothing |
| Ldmxe2.AcknowledgeRequest | ldmxe2/ldmxe2.py:36-46 | a command returns true exactly when the request's reply is `ok`; every other reply, and `NotConnected`, is `SendError` |
| Ldmxe2.StateRequestOutcome | ldmxe2/ldmxe2.py:76-83 | `get_state` yields a state only when the request got a reply that starts with `sres,` |
| Ldmxe2.Engine.StopAsWritten | ldmxe2/ldmxe2.py:132-135 | `stop` as written: it always reconnects first; with keep-alive on and the thread already started, it ends in `RuntimeError` with the connection still running and the thread as it was; otherwise running becomes false, the thread is joined when keep-alive is on, and the socket is closed after the reconnect |
| Ldmxe2.StopAsWrittenConnects | ldmxe2/ldmxe2.py:134 | stopping as written makes exactly one new connect attempt before the close |
| Ldmxe2.StartThenStopAsWritten | ldmxe2/ldmxe2.py:128-135 | with keep-alive on, start followed by stop ends in `RuntimeError` and the connection keeps running |
| Ldmxe2.Engine.Stop | ldmxe2/ldmxe2.py:132-135 | the intended `stop`: only the connection's `stop`; running becomes false; with keep-alive on and the thread never started it is `RuntimeError` with socket and thread unchanged; otherwise the socket is closed and the thread is joined when keep-alive is on |
| Ldmxe2.StopMakesNoConnection | ldmxe2/ldmxe2.py:135 | the intended `stop` adds only the close to the socket calls, with no connect |
| Ldmxe2.StartThenStop | ldmxe2/ldmxe2.py:128-135 | with the intended `stop`, start followed by stop completes and the connection no longer runs, with or without keep-alive |
| Commands.TurnOnMessage | ldmxe2/ldmxe2.py:29-33 | the `turn_on` line; its properties are in `TurnOnFields`, `TurnOnRoundTrip`, `TurnOnMessageInjective` and `TurnOnExample` |
| Commands.TurnOffMessage | ldmxe2/ldmxe2.py:52-54 | the `turn_off` line; its properties are in `TurnOffFields`, `TurnOffRoundTrip`, `TurnOffHasNoBrightness` and `TurnOffExample` |
| Commands.StateRequestMessage | ldmxe2/ldmxe2.py:73 | the `get_state` line; its property is `StateRequestRoundTrip` |
| Commands.ParseState | ldmxe2/ldmxe2.py:79-87 | the parse of a state reply; its properties are in `ParseReply`, `ParseStateThirdField`, `NotStatusReply`, `StateReplyRoundTrip`, `StateReplyOtherChannel`, `ParseStateNeedsStatusReply` and `MalformedStateField` |
| Commands.ParseStateField | ldmxe2/ldmxe2.py:90-94 | the parse of `<flag>-<brightness>`; its properties are in `StateFieldRoundTrip` and `MalformedStateFieldValue` |
| Commands.TurnOnFields | ldmxe2/ldmxe2.py:29-33 | the fields of a `turn_on` line are `on`, the channel, then `b<brightness>` only if given, then `t<transition*1000>` only if given, in that order |
| Commands.TurnOnRoundTrip | ldmxe2/ldmxe2.py:29-33 | `Decode` reads a `turn_on` line as exactly the channel, the brightness if given and the transition in milliseconds if given |
| Commands.TurnOnMessageInjective | ldmxe2/ldmxe2.py:29-33 | different `turn_on` arguments give different wire lines |
| Commands.TaggedFieldRoundTrip | ldmxe2/ldmxe2.py:31-33 | a `b` or `t` field written from an int reads back as that int and is never read as a field with another tag |
| Commands.TurnOnExample | ldmxe2/ldmxe2.py:29-31 | `turn_on(brightness=128)` on channel 3 sends `on,3,b128` |
| Commands.TurnOffFields | ldmxe2/ldmxe2.py:52-54 | the fields of a `turn_off` line are `off`, the channel, then `t<transition*1000>` only if given |
| Commands.TurnOffRoundTrip | ldmxe2/ldmxe2.py:52-54 | `Decode` reads a `turn_off` line as exactly the channel and the transition in milliseconds if given |
| Commands.TurnOffHasNoBrightness | ldmxe2/ldmxe2.py:52-54 | no field of a `turn_off` line starts with `b` |
| Commands.TurnOffExample | ldmxe2/ldmxe2.py:52-54 | a 2-second transition on channel 5 sends `off,5,t2000` |
| Commands.StateRequestRoundTrip | ldmxe2/ldmxe2.py:73 | `Decode` reads `sreq,<channel>` as a state request for that channel |
| Commands.ConnCheckRoundTrip | ldmxe2/tcp.py:12 | `Decode` reads `conncheck` as the connection check |
| Commands.Acknowledge | ldmxe2/ldmxe2.py:36-46 | true iff the request returned a reply whose stripped form is `ok`; every failure is `SendError`, `NotConnected` included |
| Commands.StateResult | ldmxe2/ldmxe2.py:76-97 | `NotConnected` always becomes `SendError` |
| Commands.ParseReply | ldmxe2/ldmxe2.py:79-87 | a reply `sres,<channel field>,<state field>` is decided by the state field when its channel field reads as this channel, and is `SendError` when it reads as another channel |
| Commands.StateFieldRoundTrip | ldmxe2/ldmxe2.py:90-94 | the field `<flag>-<brightness>` reads back as (flag != 0, brightness) |
| Commands.StateReplyRoundTrip | ldmxe2/ldmxe2.py:79-94 | parsing a reply `sres,<channel>,<flag>-<brightness>` for this channel gives (flag != 0, brightness) |
| Commands.LightStateRoundTrip | ldmxe2/ldmxe2.py:79-94 | an on/off state with a non-negative brightness survives encoding as a state reply and the client's parsing |
| Commands.StateReplyOtherChannel | ldmxe2/ldmxe2.py:86-87 | a state reply for any other channel is `SendError` |
| Commands.ParseStateNeedsStatusReply | ldmxe2/ldmxe2.py:79-83 | a reply is accepted as a state only if, stripped, it starts with `sres,` |
| Commands.MalformedStateFieldValue | ldmxe2/ldmxe2.py:90-91 | a state field with no digit is `ValueError` |
| Commands.ParseStateThirdField | ldmxe2/ldmxe2.py:79-90 | a reply `sres,<channel field>,<rest>` whose channel field reads as this channel is decided by the first comma-separated part of `rest`, with trailing whitespace stripped |
| Commands.MalformedStateField | ldmxe2/ldmxe2.py:86-92 | a reply `sres,<channel>,<rest>` for this channel whose `rest` has no digit is `ValueError`, not `SendError` |
| Commands.NotStatusReply | ldmxe2/ldmxe2.py:79-83 | a reply whose first comma-separated part, after stripping, is not `sres` is `SendError` |
| Commands.StateReplyExample | ldmxe2/ldmxe2.py:79-94 | `sres,7,1-200` on channel 7 gives (true, 200) |
| Commands.OtherChannelExample | ldmxe2/ldmxe2.py:86-87 | `sres,8,1-200` on channel 7 is `SendError` |
| Commands.MalformedStateExample | ldmxe2/ldmxe2.py:90-91 | `sres,7,xyz` on channel 7 is `ValueError` |
| Connection.TcpConnection.constructor | ldmxe2/tcp.py:26-53 | running, not connected, no thread started, one new unconnected socket; keep-alive enabled iff the interval is positive |
| Connection.TcpConnection.Reconnect | ldmxe2/tcp.py:90-128 | the fields end exactly as `Tcp.Reconnect` gives, and the connected flag still implies a welcomed socket |
| Connection.TcpConnection.Attempt | ldmxe2/tcp.py:160-163 | one send and one read, as `Tcp.Exchange` gives; the reply is stripped |
| Connection.TcpConnection.Request | ldmxe2/tcp.py:154-176 | the fields and the result are exactly those of `Tcp.Request`, and the handshake invariant is kept |
| Connection.TcpConnection.Start | ldmxe2/tcp.py:55-64 | one reconnect whose failure is swallowed; the thread starts only when keep-alive is enabled; a second start with keep-alive on is `RuntimeError` |
| Connection.TcpConnection.Stop | ldmxe2/tcp.py:66-84 | running becomes false; with keep-alive on, the thread is joined, or `RuntimeError` if it never started; the socket is closed; the connected flag is untouched |
| Connection.TcpConnection.IsOk | ldmxe2/tcp.py:86-88 | returns the connected flag and changes nothing |
| Connection.TcpConnection.KeepAliveIteration | ldmxe2/tcp.py:130-152 | one pass of the loop: nothing once running is false; otherwise the state is exactly `Tcp.KeepAliveRound`, and the handshake invariant is kept |
| Tcp.Reconnect | ldmxe2/tcp.py:90-128 | `__reconnect` as a function of the link; its properties are in `ReconnectAcceptsOnlyWelcome`, `ReconnectSocketErrors`, `ReconnectReadSize`, `ReconnectCalls` and `ReconnectKeepsValid` |
| Tcp.Exchange | ldmxe2/tcp.py:160-163 | one send and one read of `request`; its properties are in `ExchangeCalls` |
| Tcp.Request | ldmxe2/tcp.py:154-176 | `request` as a function of the link; its properties are in `RequestFirstTry`, `RequestCalls`, `RequestOutcome` and `RequestKeepsValid` |
| Tcp.KeepAliveRound | ldmxe2/tcp.py:135-148 | one pass of `__keep_alive`; its properties are in `KeepAliveRoundReconnects` and `KeepAliveRoundKeepsValid` |
| Tcp.Truncate | ldmxe2/tcp.py:106 | a read returns at most the requested number of bytes, a prefix of what the peer sent |
| Tcp.ReconnectAcceptsOnlyWelcome | ldmxe2/tcp.py:116-128 | a reconnect succeeds exactly when connect succeeds and the read returns `WELCOME_MESSAGE` byte for byte; the connected flag equals that success; the socket is open then and closed otherwise |
| Tcp.ReconnectSocketErrors | ldmxe2/tcp.py:108-114 | a socket error on connect or on the welcome read ends in failure, not connected, with the socket closed as the last call |
| Tcp.ReconnectReadSize | ldmxe2/tcp.py:106 | the only read of a reconnect asks for `len(WELCOME_MESSAGE) + 5` bytes |
| Tcp.ReconnectCalls | ldmxe2/tcp.py:96-128 | a reconnect creates one socket, makes one connect, sends nothing, reads at most once and closes exactly when it fails |
| Tcp.ReconnectKeepsValid | ldmxe2/tcp.py:117-120 | after a reconnect, connected implies that the current socket passed the handshake |
| Tcp.ExchangeCalls | ldmxe2/tcp.py:160-163 | one attempt sends once, makes no connect, keeps the socket and the flag, and returns a stripped reply of at most 64 characters |
| Tcp.RequestFirstTry | ldmxe2/tcp.py:158-163 | if the first attempt succeeds, `request` returns its stripped reply with one send and no reconnect |
| Tcp.RequestCalls | ldmxe2/tcp.py:164-176 | `request` sends once or twice, and connects once exactly when the first attempt fails |
| Tcp.RequestOutcome | ldmxe2/tcp.py:154-176 | `NotConnected` exactly when the first attempt fails and then the reconnect or the single retry fails; a reply is stripped and at most 64 characters |
| Tcp.RequestKeepsValid | ldmxe2/tcp.py:154-176 | `request` keeps the handshake invariant |
| Tcp.KeepAliveRoundReconnects | ldmxe2/tcp.py:135-148 | after the conncheck request, one more connect attempt exactly when the reply is not `ok` or the request raised `NotConnected`, none when it is `ok`; at most two sends in the pass |
| Tcp.KeepAliveRoundKeepsValid | ldmxe2/tcp.py:135-148 | a keep-alive pass keeps the handshake invariant |
| Text.StripIdempotent | ldmxe2/ldmxe2.py:40 | stripping a reply that `request` already stripped changes nothing |
| Text.JoinSplit | ldmxe2/ldmxe2.py:79 | `split` loses nothing: joining the parts gives the string back |
| Text.SplitJoin | ldmxe2/ldmxe2.py:79 | splitting a join of parts free of the separator gives the parts back |
| Text.ParseIntToString | ldmxe2/ldmxe2.py:86 | `int(str(n)) == n` for every int |
| Text.ParseIntNeedsDigit | ldmxe2/ldmxe2.py:91 | `int` of a string with no decimal digit is `ValueError` |

## Findings

| source | as written | input that shows it | evidently intended | confidence | as-written member | corrected member |
|---|---|---|---|---|---|---|
| ldmxe2/ldmxe2.py:134 | `LumizeDMXEngine2.stop` calls the connection's `start()` before its `stop()` | an engine built with `keep_alive=5`, then `start()` and `stop()`: the second `Thread.start()` raises `RuntimeError`, so the connection is never stopped and its keep-alive loop keeps running; with keep-alive off, every `stop()` first reconnects to the controller | `stop` calls only the connection's `stop()` | not executed | Ldmxe2.StartThenStopAsWritten | Ldmxe2.StartThenStop |

## Left out

- Threads, the socket lock, the condition variable and its timed wait, `join` and `asyncio.run` are not modelled. Only the thread object's lifecycle is kept, because it decides where Python raises `RuntimeError`.
- Connection.TcpConnection.KeepAliveIteration: models one pass of the `while self.__running` loop. The loop itself, the wait between passes and a `stop` from another thread are concurrency.
- Logging calls and the `ext_logger` callback are left out. They only have side effects.
- Real socket I/O is replaced by the scripted peer. Creating and closing a socket never fail in the model. A `recv` returns at most the requested bytes of one scripted outcome, and the rest of that outcome is dropped (no stream buffering). The welcome timeout is recorded, but time is not modelled.
- UTF-8 encoding and decoding are left out: messages are strings of characters. `strip()` and `int()` know only ASCII whitespace and ASCII digits.
- Transitions are ints, as the source annotates them. A float transition, and the float `transition*1000` it would give, are not modelled.
- ldmxe2/light.py, ldmxe2/__init__.py and ldmxe2/const.py are not part of this model. They are Home Assistant glue.
- Ldmxe2.Light.GetState: the unreachable `return True` after the `try` block (ldmxe2/ldmxe2.py:99) has no counterpart.
- Commands.Decode is a reading of the command grammar with Python's `int()` rules, so it also accepts channels such as `+5`, ` 5` or `0_5`. How the controller itself reads a line is not part of this model.
