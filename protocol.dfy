/**
 * The wire protocol shared by the relay, the commander and the HID client
 * (shared/src/protocol.rs): the message envelope, its payload variants and
 * the `Message::*` constructors.
 *
 * Serialisation is derived by serde in the original and is not modelled
 * here; the relay takes the JSON decoder as a parameter instead.
 */
module Protocol {
  import opened Wrappers

  newtype i32 = x: int | -0x8000_0000 <= x < 0x8000_0000
  newtype u32 = x: int | 0 <= x < 0x1_0000_0000
  newtype u64 = x: int | 0 <= x < 0x1_0000_0000_0000_0000

  /** A v4 UUID; only its identity matters to the model. */
  type Uuid = nat

  /** A `DateTime<Utc>`: nanoseconds since the Unix epoch. */
  type DateTime = int

  datatype MessageType = Auth | HidEvent | SessionControl | Status

  datatype ClientType = HidClient | Commander

  datatype AuthMessage =
    | Request(username: string, password: string, clientType: ClientType, clientId: Option<string>)
    | Response(success: bool, token: Option<string>, expiresAt: Option<DateTime>, errorMessage: Option<string>)
    | Refresh(refreshToken: string)
    | Logout

  datatype MouseButton = Left | Right | Middle | X1 | X2

  datatype KeyCode =
    | A | B | C | D | E | F | G | H | I | J | K | L | M
    | N | O | P | Q | R | S | T | U | V | W | X | Y | Z
    | Key0 | Key1 | Key2 | Key3 | Key4 | Key5 | Key6 | Key7 | Key8 | Key9
    | F1 | F2 | F3 | F4 | F5 | F6 | F7 | F8 | F9 | F10 | F11 | F12
    | Space | Enter | Tab | Backspace | Delete | Insert
    | Home | End | PageUp | PageDown
    | ArrowUp | ArrowDown | ArrowLeft | ArrowRight
    | LeftShift | RightShift | LeftControl | RightControl
    | LeftAlt | RightAlt | LeftSuper | RightSuper
    | Escape | CapsLock | NumLock | ScrollLock
    | PrintScreen | Pause | Menu
    | Minus | Equal | LeftBracket | RightBracket
    | Semicolon | Quote | Grave | Backslash
    | Comma | Period | Slash

  datatype KeyModifiers = KeyModifiers(shift: bool, control: bool, alt: bool, superKey: bool)

  /**
   * An input event. The optional coordinates of a click or a scroll are
   * `posX`/`posY` here (`x`/`y` in the original) because Dafny requires
   * fields that share a name to share a type, and a move's `x`/`y` are
   * not optional.
   */
  datatype HidEvent =
    | MouseMove(x: i32, y: i32, absolute: bool)
    | MouseClick(button: MouseButton, pressed: bool, posX: Option<i32>, posY: Option<i32>)
    | MouseScroll(deltaX: i32, deltaY: i32, posX: Option<i32>, posY: Option<i32>)
    | KeyEvent(key: KeyCode, pressed: bool, modifiers: KeyModifiers)

  datatype ClientInfo = ClientInfo(
    clientId: string,
    clientName: Option<string>,
    platform: string,
    connectedAt: DateTime,
    commanderConnected: bool)

  datatype SessionControlMessage =
    | CreateSession(clientId: string, clientName: Option<string>)
    | JoinSession(targetClientId: string)
    | ListClients
    | ClientList(clients: seq<ClientInfo>)
    | EndSession
    | SessionEnded(reason: string)

  datatype StatusMessage =
    | Heartbeat
    | ConnectionStatus(connected: bool, latencyMs: Option<u64>)
    | Error(errorCode: string, errorMessage: string)

  datatype MessagePayload =
    | Auth(auth: AuthMessage)
    | HidEvent(event: HidEvent)
    | SessionControl(control: SessionControlMessage)
    | Status(status: StatusMessage)

  datatype Message = Message(
    messageType: MessageType,
    sessionId: Option<Uuid>,
    timestamp: DateTime,
    payload: MessagePayload)

  /** The `message_type` tag names the variant the payload holds. */
  predicate Tagged(m: Message) {
    match m.payload
    case Auth(_) => m.messageType == MessageType.Auth
    case HidEvent(_) => m.messageType == MessageType.HidEvent
    case SessionControl(_) => m.messageType == MessageType.SessionControl
    case Status(_) => m.messageType == MessageType.Status
  }

  /** `KeyModifiers::default()`: no modifier held. */
  function DefaultModifiers(): (mods: KeyModifiers)
    ensures !mods.shift && !mods.control && !mods.alt && !mods.superKey
  {
    KeyModifiers(false, false, false, false)
  }

  /**
   * `Message::new`: stamps the message with the current time (`now`) and
   * keeps the type, session and payload it is given, whether or not they
   * agree.
   */
  function NewMessage(messageType: MessageType, sessionId: Option<Uuid>, payload: MessagePayload, now: DateTime): (m: Message)
    ensures m.messageType == messageType && m.sessionId == sessionId && m.payload == payload
    ensures m.timestamp == now
  {
    Message(messageType, sessionId, now, payload)
  }

  /** `Message::auth_request`: a session-less, tagged authentication request. */
  function AuthRequest(username: string, password: string, clientType: ClientType, clientId: Option<string>, now: DateTime): (m: Message)
    ensures Tagged(m) && m.messageType == MessageType.Auth && m.sessionId == None
    ensures m.payload.Auth? && m.payload.auth == Request(username, password, clientType, clientId)
  {
    NewMessage(MessageType.Auth, None, MessagePayload.Auth(Request(username, password, clientType, clientId)), now)
  }

  /** `Message::hid_event`: a tagged input event inside the given session. */
  function HidEventMessage(sessionId: Uuid, event: HidEvent, now: DateTime): (m: Message)
    ensures Tagged(m) && m.messageType == MessageType.HidEvent && m.sessionId == Some(sessionId)
    ensures m.payload.HidEvent? && m.payload.event == event
  {
    NewMessage(MessageType.HidEvent, Some(sessionId), MessagePayload.HidEvent(event), now)
  }

  /** `Message::session_control`: a tagged session-control message. */
  function SessionControlMessageOf(sessionId: Option<Uuid>, control: SessionControlMessage, now: DateTime): (m: Message)
    ensures Tagged(m) && m.messageType == MessageType.SessionControl && m.sessionId == sessionId
    ensures m.payload.SessionControl? && m.payload.control == control
  {
    NewMessage(MessageType.SessionControl, sessionId, MessagePayload.SessionControl(control), now)
  }

  /** `Message::status`: a tagged status message. */
  function StatusMessageOf(sessionId: Option<Uuid>, status: StatusMessage, now: DateTime): (m: Message)
    ensures Tagged(m) && m.messageType == MessageType.Status && m.sessionId == sessionId
    ensures m.payload.Status? && m.payload.status == status
  {
    NewMessage(MessageType.Status, sessionId, MessagePayload.Status(status), now)
  }

  /**
   * A decoder that inverts an encoder: what serde's derived JSON
   * serialisation is relied on for.
   */
  ghost predicate RoundTrips(encode: Message -> string, decode: string -> Option<Message>) {
    forall m :: decode(encode(m)) == Some(m)
  }
}
