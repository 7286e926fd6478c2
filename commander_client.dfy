/**
 * The commander's side of the relay (commander/src/client.rs): the
 * translation of captured input into protocol events, the join request it
 * opens its connection with, and the frame it writes for each event. The
 * socket, the `select!` loop and the server-message handler are not part
 * of this model; JSON encoding and decoding are the `encode`/`decode`
 * parameters.
 */
module CommanderClient {
  import opened Wrappers
  import opened Protocol
  import opened InputCapture
  import opened Relay

  /**
   * `convert_input_to_hid`: every captured event has a protocol event of
   * the same kind carrying the same fields.
   */
  function ConvertInputToHid(input: InputEvent): (r: Option<HidEvent>)
    ensures r.Some?
    ensures input.MouseMove? <==> r.value.MouseMove?
    ensures input.MouseClick? <==> r.value.MouseClick?
    ensures input.MouseScroll? <==> r.value.MouseScroll?
    ensures input.KeyEvent? <==> r.value.KeyEvent?
  {
    match input
    case MouseMove(x, y, absolute) => Some(HidEvent.MouseMove(x, y, absolute))
    case MouseClick(button, pressed, x, y) => Some(HidEvent.MouseClick(button, pressed, x, y))
    case MouseScroll(deltaX, deltaY, x, y) => Some(HidEvent.MouseScroll(deltaX, deltaY, x, y))
    case KeyEvent(key, pressed, modifiers) => Some(HidEvent.KeyEvent(key, pressed, modifiers))
  }

  /** The captured event a protocol event was translated from: the translation's inverse. */
  function InputOf(event: HidEvent): InputEvent {
    match event
    case MouseMove(x, y, absolute) => InputEvent.MouseMove(x, y, absolute)
    case MouseClick(button, pressed, x, y) => InputEvent.MouseClick(button, pressed, x, y)
    case MouseScroll(deltaX, deltaY, x, y) => InputEvent.MouseScroll(deltaX, deltaY, x, y)
    case KeyEvent(key, pressed, modifiers) => InputEvent.KeyEvent(key, pressed, modifiers)
  }

  /** Nothing is lost in translation: the captured event is recovered from the protocol event. */
  lemma ConversionRoundTrips(input: InputEvent)
    ensures InputOf(ConvertInputToHid(input).value) == input
  {
  }

  /** Every protocol event is the translation of exactly one captured event. */
  lemma ConversionIsOnto(event: HidEvent)
    ensures ConvertInputToHid(InputOf(event)) == Some(event)
  {
  }

  /** Field by field: coordinates, buttons, deltas, keys and all four modifier flags are kept. */
  lemma ConversionKeepsFields(input: InputEvent)
    ensures var e := ConvertInputToHid(input).value;
      match input
      case MouseMove(x, y, absolute) => e.x == x && e.y == y && e.absolute == absolute
      case MouseClick(button, pressed, x, y) => e.button == button && e.pressed == pressed && e.posX == x && e.posY == y
      case MouseScroll(dx, dy, x, y) => e.deltaX == dx && e.deltaY == dy && e.posX == x && e.posY == y
      case KeyEvent(key, pressed, mods) =>
        && e.key == key && e.pressed == pressed
        && e.modifiers.shift == mods.shift && e.modifiers.control == mods.control
        && e.modifiers.alt == mods.alt && e.modifiers.superKey == mods.superKey
  {
  }

  /**
   * The keystrokes a typed line produces reach the wire as key events for
   * the same keys, pressed and released in the same order.
   */
  lemma {:induction false} TypedLineConverts(text: string)
    ensures forall j :: 0 <= j < |LineEvents(text)| ==>
      && ConvertInputToHid(LineEvents(text)[j]).value.KeyEvent?
      && ConvertInputToHid(LineEvents(text)[j]).value.key == LineEvents(text)[j].key
    decreases |text|
  {
    if |text| > 0 {
      TypedLineConverts(text[..|text| - 1]);
      LineEventsArePairs(text);
    }
  }

  /** The join request `run` sends first, naming the HID client to drive. */
  function JoinRequest(target: string, now: DateTime): (m: Message)
    ensures Tagged(m) && m.messageType == MessageType.SessionControl && m.sessionId == None
    ensures m.payload == MessagePayload.SessionControl(JoinSession(target))
  {
    SessionControlMessageOf(None, JoinSession(target), now)
  }

  /**
   * The relay reads the commander's join frame as a commander handshake
   * for the same target, whatever follows it.
   */
  lemma JoinRequestIsCommanderHello(target: string, now: DateTime, rest: seq<Frame>,
                                    encode: Message -> string, decode: string -> Option<Message>)
    requires RoundTrips(encode, decode)
    ensures FirstMessage([Text(encode(JoinRequest(target, now)))] + rest, decode) == CommanderHello(target)
  {
    assert decode(encode(JoinRequest(target, now))) == Some(JoinRequest(target, now));
  }

  /**
   * The message `run` sends for one captured event: tagged HidEvent under
   * a fresh id, stamped with the time it is built, and carrying the
   * converted event, from which the captured one is recovered.
   */
  function EventMessage(input: InputEvent, freshId: Uuid, now: DateTime): (m: Message)
    ensures Tagged(m) && m.messageType == MessageType.HidEvent
    ensures m.sessionId == Some(freshId) && m.timestamp == now
    ensures m.payload.HidEvent? && InputOf(m.payload.event) == input
  {
    ConversionRoundTrips(input);
    HidEventMessage(freshId, ConvertInputToHid(input).value, now)
  }

  /** The text frame `run` writes for one captured event. */
  function EventFrame(input: InputEvent, freshId: Uuid, now: DateTime, encode: Message -> string): string {
    encode(EventMessage(input, freshId, now))
  }

  /**
   * End to end: every captured event the commander writes is forwarded
   * by the relay's commander loop, unchanged, and decodes back to the
   * captured event.
   */
  lemma CapturedEventIsForwarded(input: InputEvent, freshId: Uuid, now: DateTime,
                                 encode: Message -> string, decode: string -> Option<Message>)
    requires RoundTrips(encode, decode)
    ensures var frame := EventFrame(input, freshId, now, encode);
      && CommanderStep(Text(frame), decode) == Forward(frame)
      && decode(frame).value.payload.HidEvent?
      && InputOf(decode(frame).value.payload.event) == input
  {
    var m := EventMessage(input, freshId, now);
    assert decode(encode(m)) == Some(m);
  }
}
