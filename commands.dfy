/**
 * The wire format of the per-channel commands in ldmxe2.py: the strings
 * `LumizeDMXEngine2Light` sends, and how it reads the replies.
 *
 * The partner of each encoder is `Decode`, a reading of a
 * command line, written from the protocol's grammar (comma-separated fields,
 * a keyword first, optional fields tagged `b` and `t`) and not from the
 * encoders. The partner of the state-reply parser is `StateReplyMessage`,
 * the state reply written out from its format.
 */
module Commands {
  import opened Wrappers
  import opened Text
  import Tcp

  /** Channels are numbered 0 to 511. */
  const ChannelCount: int := 512

  /** A command as the command grammar reads it off the wire. */
  datatype Command =
    | TurnOn(channel: int, brightness: Option<int>, transitionMs: Option<int>)
    | TurnOff(channel: int, transitionMs: Option<int>)
    | StateRequest(channel: int)
    | ConnCheck

  /** The exceptions a light handle lets escape: its own `SendError`, and Python's `ValueError` and `IndexError` from `get_state`. */
  datatype LightError = SendError | ValueError | IndexError

  datatype LightState = LightState(isOn: bool, brightness: int)

  /** The transition, given in seconds, in the milliseconds put on the wire. */
  function Milliseconds(transition: Option<int>): Option<int> {
    if transition.Some? then Some(transition.value * 1000) else None
  }

  // ---------------------------------------------------------------------------
  // What the light handle sends
  // ---------------------------------------------------------------------------

  /** `turn_on`: `on,<channel>`, then `,b<brightness>` if given, then `,t<milliseconds>` if given. */
  function TurnOnMessage(channel: int, brightness: Option<int>, transition: Option<int>): string {
    "on," + IntToString(channel)
      + (if brightness.Some? then ",b" + IntToString(brightness.value) else "")
      + (if transition.Some? then ",t" + IntToString(transition.value * 1000) else "")
  }

  /** `turn_off`: `off,<channel>`, then `,t<milliseconds>` if given. */
  function TurnOffMessage(channel: int, transition: Option<int>): string {
    "off," + IntToString(channel)
      + (if transition.Some? then ",t" + IntToString(transition.value * 1000) else "")
  }

  /** `get_state`: `sreq,<channel>`. */
  function StateRequestMessage(channel: int): string {
    "sreq," + IntToString(channel)
  }

  // ---------------------------------------------------------------------------
  // Reading a command line by the command grammar
  // ---------------------------------------------------------------------------

  /** The value of an optional field `<tag><int>`. */
  function TaggedField(tag: char, field: string): Option<int> {
    if |field| > 0 && field[0] == tag then ParseInt(field[1..]) else None
  }

  /** The optional fields of `on`: a brightness, a transition, or both in that order. */
  function DecodeTurnOnOptions(options: seq<string>): Option<(Option<int>, Option<int>)> {
    if |options| == 0 then Some((None, None))
    else if |options| == 1 then
      if TaggedField('b', options[0]).Some? then Some((TaggedField('b', options[0]), None))
      else if TaggedField('t', options[0]).Some? then Some((None, TaggedField('t', options[0])))
      else None
    else if |options| == 2 && TaggedField('b', options[0]).Some? && TaggedField('t', options[1]).Some? then
      Some((TaggedField('b', options[0]), TaggedField('t', options[1])))
    else None
  }

  /** The optional field of `off`: a transition only. */
  function DecodeTurnOffOptions(options: seq<string>): Option<Option<int>> {
    if |options| == 0 then Some(None)
    else if |options| == 1 && TaggedField('t', options[0]).Some? then Some(TaggedField('t', options[0]))
    else None
  }

  /** The command a line stands for, or `None` for a line the protocol does not define. */
  function Decode(message: string): Option<Command> {
    DecodeFields(Split(message, ','))
  }

  /** The command the comma-separated fields of a line stand for. */
  function DecodeFields(fields: seq<string>): Option<Command>
    requires |fields| >= 1
  {
    if fields == [Tcp.ConnCheckMessage] then Some(ConnCheck)
    else if |fields| < 2 then None
    else
      match ParseInt(fields[1])
      case None => None
      case Some(channel) =>
        if fields[0] == "on" then
          match DecodeTurnOnOptions(fields[2..])
          case None => None
          case Some(options) => Some(TurnOn(channel, options.0, options.1))
        else if fields[0] == "off" then
          match DecodeTurnOffOptions(fields[2..])
          case None => None
          case Some(transitionMs) => Some(TurnOff(channel, transitionMs))
        else if fields[0] == "sreq" && |fields| == 2 then Some(StateRequest(channel))
        else None
  }

  // ---------------------------------------------------------------------------
  // Round trips of the commands
  // ---------------------------------------------------------------------------

  lemma NoCommaInInt(n: int)
    ensures ',' !in IntToString(n) && '-' !in NatDigits(if n < 0 then -n else n)
  {
    IntToStringCharacters(n);
  }

  /** Appending `,<field>` to a line appends `field` to its parts. */
  lemma SplitAppendField(prefix: string, field: string)
    requires ',' !in field
    ensures Split(prefix + [','] + field, ',') == Split(prefix, ',') + [field]
  {
    SplitAt(prefix, field, ',');
    SplitWithoutSep(field, ',');
  }

  /** The fields of `<keyword>,<channel>` followed by optional `,<tag><value>` fields. */
  lemma FieldsWithOptional(prefix: string, tag: char, value: Option<int>)
    requires tag != ','
    ensures Split(prefix + (if value.Some? then [',', tag] + IntToString(value.value) else ""), ',')
      == Split(prefix, ',') + (if value.Some? then [[tag] + IntToString(value.value)] else [])
  {
    if value.Some? {
      var field := [tag] + IntToString(value.value);
      NoCommaInInt(value.value);
      assert prefix + ([',', tag] + IntToString(value.value)) == prefix + [','] + field;
      SplitAppendField(prefix, field);
    } else {
      assert prefix + "" == prefix;
    }
  }

  /** The fields of `<keyword>,<field>`, where `head` is `<keyword>,`. */
  lemma FieldsOfHead(keyword: string, head: string, field: string)
    requires head == keyword + [',']
    requires ',' !in keyword && ',' !in field
    ensures Split(head + field, ',') == [keyword, field]
  {
    SplitAppendField(keyword, field);
    SplitWithoutSep(keyword, ',');
  }

  /** The fields of a reply `sres,<field>`. */
  lemma StatusFields(field: string)
    requires ',' !in field
    ensures Split("sres," + field, ',') == ["sres", field]
  {
    assert ',' !in "sres" by {
      assert forall i :: 0 <= i < |"sres"| ==> "sres"[i] != ',';
    }
    FieldsOfHead("sres", "sres,", field);
  }

  /** A tagged field written from an int reads back as that int, and is not a field of another tag. */
  lemma TaggedFieldRoundTrip(tag: char, n: int)
    ensures TaggedField(tag, [tag] + IntToString(n)) == Some(n)
    ensures forall other :: other != tag ==> TaggedField(other, [tag] + IntToString(n)) == None
  {
    assert ([tag] + IntToString(n))[1..] == IntToString(n);
    ParseIntToString(n);
  }

  /** The optional `,<tag><value>` fields of a command line. */
  function OptionalFields(tag: char, value: Option<int>): seq<string> {
    if value.Some? then [[tag] + IntToString(value.value)] else []
  }

  /** The fields of a `turn_on` line, in order: keyword, channel, then the brightness and the transition only if given. */
  lemma TurnOnFields(channel: int, brightness: Option<int>, transition: Option<int>)
    ensures Split(TurnOnMessage(channel, brightness, transition), ',')
      == ["on", IntToString(channel)] + OptionalFields('b', brightness) + OptionalFields('t', Milliseconds(transition))
  {
    var head := "on," + IntToString(channel);
    var withB := head + (if brightness.Some? then [',', 'b'] + IntToString(brightness.value) else "");
    var t := Milliseconds(transition);
    assert withB + (if t.Some? then [',', 't'] + IntToString(t.value) else "") == TurnOnMessage(channel, brightness, transition);
    NoCommaInInt(channel);
    FieldsOfHead("on", "on,", IntToString(channel));
    FieldsWithOptional(head, 'b', brightness);
    FieldsWithOptional(withB, 't', t);
  }

  /** The fields of a `turn_off` line, in order: keyword, channel, then the transition only if given. */
  lemma TurnOffFields(channel: int, transition: Option<int>)
    ensures Split(TurnOffMessage(channel, transition), ',')
      == ["off", IntToString(channel)] + OptionalFields('t', Milliseconds(transition))
  {
    var head := "off," + IntToString(channel);
    var t := Milliseconds(transition);
    assert head + (if t.Some? then [',', 't'] + IntToString(t.value) else "") == TurnOffMessage(channel, transition);
    NoCommaInInt(channel);
    FieldsOfHead("off", "off,", IntToString(channel));
    FieldsWithOptional(head, 't', t);
  }

  /** The optional fields of `on` read back as the brightness and transition they were written from. */
  lemma TurnOnOptionsRoundTrip(brightness: Option<int>, transitionMs: Option<int>)
    ensures DecodeTurnOnOptions(OptionalFields('b', brightness) + OptionalFields('t', transitionMs))
      == Some((brightness, transitionMs))
  {
    var options := OptionalFields('b', brightness) + OptionalFields('t', transitionMs);
    match (brightness, transitionMs)
    case (None, None) =>
      assert options == [];
    case (Some(b), None) =>
      assert options == ["b" + IntToString(b)];
      TaggedFieldRoundTrip('b', b);
    case (None, Some(t)) =>
      assert options == ["t" + IntToString(t)];
      TaggedFieldRoundTrip('t', t);
    case (Some(b), Some(t)) =>
      assert options == ["b" + IntToString(b), "t" + IntToString(t)];
      TaggedFieldRoundTrip('b', b);
      TaggedFieldRoundTrip('t', t);
  }

  /** An `on` line whose channel field reads as `channel` and whose options read as given. */
  lemma DecodeTurnOnFields(channelField: string, channel: int, options: seq<string>, brightness: Option<int>, transitionMs: Option<int>)
    requires ParseInt(channelField) == Some(channel)
    requires DecodeTurnOnOptions(options) == Some((brightness, transitionMs))
    ensures DecodeFields(["on", channelField] + options) == Some(TurnOn(channel, brightness, transitionMs))
  {
    assert (["on", channelField] + options)[2..] == options;
  }

  /**
   * `Decode` reads a `turn_on` line as exactly the command meant: the
   * channel, the brightness only if one was given, and the transition, in
   * milliseconds, only if one was given.
   */
  lemma TurnOnRoundTrip(channel: int, brightness: Option<int>, transition: Option<int>)
    ensures Decode(TurnOnMessage(channel, brightness, transition))
      == Some(TurnOn(channel, brightness, Milliseconds(transition)))
  {
    var t := Milliseconds(transition);
    var options := OptionalFields('b', brightness) + OptionalFields('t', t);
    var fields := ["on", IntToString(channel)] + options;
    assert Split(TurnOnMessage(channel, brightness, transition), ',') == fields by {
      TurnOnFields(channel, brightness, transition);
    }
    assert DecodeFields(fields) == Some(TurnOn(channel, brightness, t)) by {
      ParseIntToString(channel);
      TurnOnOptionsRoundTrip(brightness, t);
      DecodeTurnOnFields(IntToString(channel), channel, options, brightness, t);
    }
  }

  lemma TurnOffOptionsRoundTrip(transitionMs: Option<int>)
    ensures DecodeTurnOffOptions(OptionalFields('t', transitionMs)) == Some(transitionMs)
  {
    if transitionMs.Some? {
      assert OptionalFields('t', transitionMs) == ["t" + IntToString(transitionMs.value)];
      TaggedFieldRoundTrip('t', transitionMs.value);
    }
  }

  /** An `off` line whose channel field reads as `channel` and whose options read as given. */
  lemma DecodeTurnOffFields(channelField: string, channel: int, options: seq<string>, transitionMs: Option<int>)
    requires ParseInt(channelField) == Some(channel)
    requires DecodeTurnOffOptions(options) == Some(transitionMs)
    ensures DecodeFields(["off", channelField] + options) == Some(TurnOff(channel, transitionMs))
  {
    assert (["off", channelField] + options)[2..] == options;
  }

  /** `Decode` reads a `turn_off` line as the channel and the optional transition in milliseconds. */
  lemma TurnOffRoundTrip(channel: int, transition: Option<int>)
    ensures Decode(TurnOffMessage(channel, transition)) == Some(TurnOff(channel, Milliseconds(transition)))
  {
    var t := Milliseconds(transition);
    var options := OptionalFields('t', t);
    var fields := ["off", IntToString(channel)] + options;
    assert Split(TurnOffMessage(channel, transition), ',') == fields by {
      TurnOffFields(channel, transition);
    }
    assert DecodeFields(fields) == Some(TurnOff(channel, t)) by {
      ParseIntToString(channel);
      TurnOffOptionsRoundTrip(t);
      DecodeTurnOffFields(IntToString(channel), channel, options, t);
    }
  }

  /** No field of a `turn_off` line is a brightness field. */
  lemma TurnOffHasNoBrightness(channel: int, transition: Option<int>)
    ensures var fields := Split(TurnOffMessage(channel, transition), ',');
      forall i :: 0 <= i < |fields| ==> fields[i] == [] || fields[i][0] != 'b'
  {
    TurnOffFields(channel, transition);
    IntToStringCharacters(channel);
  }

  lemma DecodeStateRequestFields(channelField: string, channel: int)
    requires ParseInt(channelField) == Some(channel)
    ensures DecodeFields(["sreq", channelField]) == Some(StateRequest(channel))
  {
    var fields := ["sreq", channelField];
    assert fields != [Tcp.ConnCheckMessage];
    assert fields[0] != "on" && fields[0] != "off";
  }

  lemma StateRequestRoundTrip(channel: int)
    ensures Decode(StateRequestMessage(channel)) == Some(StateRequest(channel))
  {
    var fields := ["sreq", IntToString(channel)];
    assert Split(StateRequestMessage(channel), ',') == fields by {
      NoCommaInInt(channel);
      FieldsOfHead("sreq", "sreq,", IntToString(channel));
    }
    assert DecodeFields(fields) == Some(StateRequest(channel)) by {
      ParseIntToString(channel);
      DecodeStateRequestFields(IntToString(channel), channel);
    }
  }

  lemma ConnCheckRoundTrip()
    ensures Decode(Tcp.ConnCheckMessage) == Some(ConnCheck)
  {
    SplitWithoutSep(Tcp.ConnCheckMessage, ',');
  }

  lemma MillisecondsInjective(t1: Option<int>, t2: Option<int>)
    requires Milliseconds(t1) == Milliseconds(t2)
    ensures t1 == t2
  {
  }

  /** Different `turn_on` calls put different lines on the wire. */
  lemma TurnOnMessageInjective(c1: int, b1: Option<int>, t1: Option<int>, c2: int, b2: Option<int>, t2: Option<int>)
    requires TurnOnMessage(c1, b1, t1) == TurnOnMessage(c2, b2, t2)
    ensures c1 == c2 && b1 == b2 && t1 == t2
  {
    TurnOnRoundTrip(c1, b1, t1);
    TurnOnRoundTrip(c2, b2, t2);
    MillisecondsInjective(t1, t2);
  }

  // ---------------------------------------------------------------------------
  // Replies
  // ---------------------------------------------------------------------------

  /** `turn_on` / `turn_off` after the request: true when the stripped reply is `ok`, `SendError` otherwise, `NotConnected` included. */
  function Acknowledge(response: Result<string, Tcp.RequestError>): (r: Result<bool, LightError>)
    ensures r.Success? <==> response.Success? && Strip(response.value) == "ok"
    ensures r.Success? ==> r.value
    ensures r.Failure? ==> r.error == SendError
  {
    match response
    case Failure(NotConnected) => Failure(SendError)
    case Success(reply) => if Strip(reply) != "ok" then Failure(SendError) else Success(true)
  }

  /**
   * The parsing half of `get_state`: split on commas; the first field must
   * be `sres` and the second must read as this channel, or `SendError`; the
   * third, split on `-`, gives the flag (non-zero is on) and the brightness.
   * A missing field is Python's `IndexError`, a field that is not an int its
   * `ValueError`, in the order the Python code meets them.
   */
  function ParseState(channel: int, response: string): Result<LightState, LightError> {
    var fields := Split(Strip(response), ',');
    if fields[0] != "sres" then Failure(SendError)
    else if |fields| < 2 then Failure(IndexError)
    else
      match ParseInt(fields[1])
      case None => Failure(ValueError)
      case Some(reported) =>
        if reported != channel then Failure(SendError)
        else if |fields| < 3 then Failure(IndexError)
        else ParseStateField(fields[2])
  }

  /** The third field of a state reply, `<flag>-<brightness>`; the flag is read before the brightness is looked for. */
  function ParseStateField(field: string): Result<LightState, LightError> {
    var state := Split(field, '-');
    match ParseInt(state[0])
    case None => Failure(ValueError)
    case Some(flag) =>
      if |state| < 2 then Failure(IndexError)
      else
        match ParseInt(state[1])
        case None => Failure(ValueError)
        case Some(brightness) => Success(LightState(flag != 0, brightness))
  }

  /** `get_state` after the request: `NotConnected` becomes `SendError`; a reply is parsed. */
  function StateResult(channel: int, response: Result<string, Tcp.RequestError>): (r: Result<LightState, LightError>)
    ensures response.Failure? ==> r == Failure(SendError)
  {
    match response
    case Failure(NotConnected) => Failure(SendError)
    case Success(reply) => ParseState(channel, reply)
  }

  /** The `<flag>-<brightness>` field of a state reply. */
  function StateField(flag: nat, brightness: nat): string {
    IntToString(flag) + "-" + IntToString(brightness)
  }

  /** A state reply in its wire format: `sres,<channel>,<flag>-<brightness>`. */
  function StateReplyMessage(channel: int, flag: nat, brightness: nat): string {
    "sres," + IntToString(channel) + "," + StateField(flag, brightness)
  }

  lemma StateFieldParts(flag: nat, brightness: nat)
    ensures ',' !in StateField(flag, brightness)
    ensures Split(StateField(flag, brightness), '-') == [IntToString(flag), IntToString(brightness)]
    ensures |StateField(flag, brightness)| > 0 && IsDigit(StateField(flag, brightness)[|StateField(flag, brightness)| - 1])
  {
    var f := IntToString(flag);
    var b := IntToString(brightness);
    var third := StateField(flag, brightness);
    NatToStringDigits(flag);
    NatToStringDigits(brightness);
    assert forall i :: 0 <= i < |third| ==> IsDigit(third[i]) || third[i] == '-';
    assert third == f + ['-'] + b;
    assert third[|third| - 1] == b[|b| - 1];
    assert '-' !in f && '-' !in b by {
      assert forall i :: 0 <= i < |f| ==> IsDigit(f[i]);
      assert forall i :: 0 <= i < |b| ==> IsDigit(b[i]);
    }
    SplitAt(f, b, '-');
    SplitWithoutSep(f, '-');
    SplitWithoutSep(b, '-');
  }

  /**
   * A reply `sres,<channel field>,<state field>` whose channel field reads
   * as `reported`: the state field decides when `reported` is this light's
   * channel, and it is `SendError` otherwise.
   */
  lemma ParseReply(channel: int, reported: int, channelField: string, stateField: string)
    requires ',' !in channelField && ',' !in stateField
    requires stateField == [] || !IsSpace(stateField[|stateField| - 1])
    requires ParseInt(channelField) == Some(reported)
    ensures ParseState(channel, "sres," + channelField + "," + stateField)
      == if reported == channel then ParseStateField(stateField) else Failure(SendError)
  {
    var head := "sres," + channelField;
    var m := head + [','] + stateField;
    assert m[0] == 's';
    assert m[|m| - 1] == if stateField == [] then ',' else stateField[|stateField| - 1];
    StripUnchanged(m);
    StatusFields(channelField);
    SplitAppendField(head, stateField);
    assert Split(Strip(m), ',') == ["sres", channelField, stateField];
  }

  /** A state field written from a flag and a brightness reads back as them. */
  lemma StateFieldRoundTrip(flag: nat, brightness: nat)
    ensures ParseStateField(StateField(flag, brightness)) == Success(LightState(flag != 0, brightness))
  {
    assert Split(StateField(flag, brightness), '-') == [IntToString(flag), IntToString(brightness)] by {
      StateFieldParts(flag, brightness);
    }
    assert ParseInt(IntToString(flag)) == Some(flag as int) by {
      ParseIntToString(flag);
    }
    assert ParseInt(IntToString(brightness)) == Some(brightness as int) by {
      ParseIntToString(brightness);
    }
  }

  /** Parsing a state reply for this channel gives back the state it encodes. */
  lemma StateReplyRoundTrip(channel: int, flag: nat, brightness: nat)
    ensures ParseState(channel, StateReplyMessage(channel, flag, brightness)) == Success(LightState(flag != 0, brightness))
  {
    NoCommaInInt(channel);
    StateFieldParts(flag, brightness);
    ParseIntToString(channel);
    ParseReply(channel, channel, IntToString(channel), StateField(flag, brightness));
    StateFieldRoundTrip(flag, brightness);
  }

  /** An on/off state with a non-negative brightness survives encoding as a state reply and the client's parsing. */
  lemma LightStateRoundTrip(channel: int, state: LightState)
    requires state.brightness >= 0
    ensures ParseState(channel, StateReplyMessage(channel, if state.isOn then 1 else 0, state.brightness)) == Success(state)
  {
    StateReplyRoundTrip(channel, if state.isOn then 1 else 0, state.brightness);
  }

  /** A state reply for another channel is refused with `SendError`. */
  lemma StateReplyOtherChannel(channel: int, other: int, flag: nat, brightness: nat)
    requires other != channel
    ensures ParseState(channel, StateReplyMessage(other, flag, brightness)) == Failure(SendError)
  {
    NoCommaInInt(other);
    StateFieldParts(flag, brightness);
    ParseIntToString(other);
    ParseReply(channel, other, IntToString(other), StateField(flag, brightness));
  }

  /** Only a reply that, stripped, starts with `sres,` is ever accepted as a state. */
  lemma ParseStateNeedsStatusReply(channel: int, response: string)
    requires ParseState(channel, response).Success?
    ensures |Strip(response)| >= 5 && Strip(response)[..5] == "sres,"
  {
    var t := Strip(response);
    var fields := Split(t, ',');
    JoinSplit(t, ',');
    assert Join(fields, ',') == fields[0] + [','] + Join(fields[1..], ',');
    assert t == "sres" + [','] + Join(fields[1..], ',');
  }

  /** The wire line of `turn_on(brightness=128)` on channel 3. */
  lemma TurnOnExample()
    ensures TurnOnMessage(3, Some(128), None) == "on,3,b128"
  {
  }

  /** Turning channel 5 off over 2 seconds: the transition goes on the wire in milliseconds. */
  lemma TurnOffExample()
    ensures TurnOffMessage(5, Some(2)) == "off,5,t2000"
  {
  }

  /** A proper state reply for channel 7: on, at brightness 200. */
  lemma StateReplyExample()
    ensures ParseState(7, "sres,7,1-200") == Success(LightState(true, 200))
  {
    assert StateReplyMessage(7, 1, 200) == "sres,7,1-200";
    StateReplyRoundTrip(7, 1, 200);
  }

  /** A reply naming channel 8 is refused on channel 7. */
  lemma OtherChannelExample()
    ensures ParseState(7, "sres,8,1-200") == Failure(SendError)
  {
    assert StateReplyMessage(8, 1, 200) == "sres,8,1-200";
    StateReplyOtherChannel(7, 8, 1, 200);
  }

  /** A state field that holds no digit is Python's `ValueError`: the flag before the first `-` is not an int. */
  lemma MalformedStateFieldValue(junk: string)
    requires forall i :: 0 <= i < |junk| ==> !IsDigit(junk[i])
    ensures ParseStateField(junk) == Failure(ValueError)
  {
    SplitFirstPrefix(junk, '-');
    PrefixHasNoDigit(Split(junk, '-')[0], junk);
    ParseIntNeedsDigit(Split(junk, '-')[0]);
  }

  /** Stripping a reply `sres,<channel field>,<rest>` only strips the end of `rest`. */
  lemma StatusStrip(channelField: string, rest: string)
    ensures Strip("sres," + channelField + "," + rest) == "sres," + channelField + "," + StripRight(rest)
  {
    var head := "sres," + channelField + ",";
    assert (head + rest)[0] == 's' && head[|head| - 1] == ',';
    StripLeftUnchanged(head + rest);
    StripRightAfter(head, rest);
  }

  /** The fields of a reply `sres,<channel field>,<rest>`: `sres`, the channel field, then the fields of `rest`. */
  lemma StatusSplit(channelField: string, rest: string)
    requires ',' !in channelField
    ensures Split("sres," + channelField + "," + rest, ',') == ["sres", channelField] + Split(rest, ',')
  {
    StatusFields(channelField);
    assert "sres," + channelField + "," + rest == "sres," + channelField + [','] + rest;
    SplitAt("sres," + channelField, rest, ',');
  }

  /**
   * A reply `sres,<channel field>,<rest>` whose channel field reads as this
   * channel is decided by the first comma-separated part of `rest`, with
   * trailing whitespace stripped first.
   */
  lemma ParseStateThirdField(channel: int, channelField: string, rest: string)
    requires ',' !in channelField
    requires ParseInt(channelField) == Some(channel)
    ensures ParseState(channel, "sres," + channelField + "," + rest) == ParseStateField(Split(StripRight(rest), ',')[0])
  {
    StatusStrip(channelField, rest);
    StatusSplit(channelField, StripRight(rest));
  }

  /** A reply for this channel whose third part holds no digit is Python's `ValueError`, not `SendError`. */
  lemma MalformedStateField(channel: int, junk: string)
    requires forall i :: 0 <= i < |junk| ==> !IsDigit(junk[i])
    ensures ParseState(channel, "sres," + IntToString(channel) + "," + junk) == Failure(ValueError)
  {
    NoCommaInInt(channel);
    ParseIntToString(channel);
    ParseStateThirdField(channel, IntToString(channel), junk);
    var kept := StripRight(junk);
    PrefixHasNoDigit(kept, junk);
    SplitFirstPrefix(kept, ',');
    PrefixHasNoDigit(Split(kept, ',')[0], kept);
    MalformedStateFieldValue(Split(kept, ',')[0]);
  }

  /** A reply whose first part, once stripped and split on commas, is not `sres` is `SendError`, whatever follows. */
  lemma NotStatusReply(channel: int, response: string)
    requires Split(Strip(response), ',')[0] != "sres"
    ensures ParseState(channel, response) == Failure(SendError)
  {
  }

  /** The reply `sres,7,xyz` on channel 7. */
  lemma MalformedStateExample()
    ensures ParseState(7, "sres,7,xyz") == Failure(ValueError)
  {
    assert "sres," + IntToString(7) + "," + "xyz" == "sres,7,xyz";
    MalformedStateField(7, "xyz");
  }
}
