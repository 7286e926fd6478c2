# remote_hid in Dafny

A model of the core of remote_hid, a remote keyboard-and-mouse system. It has three parts:

- **Commanders** capture local input and send it as JSON messages over WebSocket.
- **The session server** relays those messages.
- **HID clients** replay the events through the operating system's input APIs.

The model covers the in-memory state machines and the pure mappings around the relay. The WebSocket, OS and library calls around them are not part of the model.

| file | module | models |
|---|---|---|
| `wrappers.dfy` | `Wrappers` | `Option` and `Result`. |
| `protocol.dfy` | `Protocol` | The wire datatypes and the `Message::*` constructors (`shared/src/protocol.rs`). |
| `sessions.dfy` | `Sessions` | The `SessionManager` class: the session table and its client index, which are kept mutually inverse (`session-server/src/session.rs`). |
| `relay.dfy` | `Relay` | The running server's `ServerState` class with its three maps. Also the first-message handshake, the two receive loops and their clean-ups (`session-server/src/server.rs`). |
| `auth.dfy` | `Auth` | Token expiry arithmetic and the token expiry check. Also users and the `UserStore` class (`shared/src/auth.rs`). |
| `input_capture.dfy` | `InputCapture` | `char_to_keycode` and the console loops that turn typed lines into key presses and releases (`commander/src/input_capture.rs`). |
| `commander_client.dfy` | `CommanderClient` | `convert_input_to_hid`, plus the join frame and the event frames the commander writes (`commander/src/client.rs`). |
| `hid.dfy` | `Hid` | The key tables, the button tables, the click position, the move flags and the wheel inputs of the macOS and Windows handlers (`hid-client/src/hid.rs`). |

How the environment is represented:

- **Clock.** Each read of `Utc::now()` becomes a `now` parameter. The expiry sweep reads the clock once per session it visits, so there it is a `clock` function from session id to the time read for that session. A `DateTime` is a count of nanoseconds.
- **Fresh ids.** Each `Uuid::new_v4()` becomes a caller-supplied fresh id. `SessionManager.CreateSession` requires the id to be absent from its table. The server's session insert overwrites, as the code does.
- **Foreign calls.** JSON encoding and decoding (serde), bcrypt, JWT encode and decode, and Windows `SendInput` are function parameters. `SendInput` takes one mouse or keyboard `INPUT` and answers how many inputs it inserted. Their success and error results are passed on exactly as the code passes them on.
- **WebSocket streams.** A connection is the sequence of frames it yields, in order. What the server writes to a HID client is appended to the `ServerState.sent` log.
- **Console input.** Standard input is a sequence of lines. A line that fails to read is `None`.

## Behaviour of the code as written

The model follows the code, including these behaviours that are easy to miss:

- **Duplicate HID client ids.** A second HID client registering an id already in use silently replaces the first (`session-server/src/server.rs:93-95`). Nothing rejects a duplicate registration.
- **No pairing checks on join.** A join inserts a session unconditionally (`session-server/src/server.rs:133-134`). The target's existence and any existing pairing are not checked, and no `TargetNotFound` or `TargetAlreadyPaired` is ever reported.
- **Stale HID disconnects.** When a HID client disconnects, the clean-up removes whatever connection is filed under its id, even a newer connection that replaced it (`session-server/src/server.rs:127`). `Relay.StaleHidDisconnectUnregistersNewer` exhibits this.
- **Commanders are never unregistered.** Sessions of a commander are dropped when it disconnects (`session-server/src/server.rs:176`), but its `commanders` entry stays.
- **Forwarding uses only the tag.** Forwarding looks only at `message_type == HidEvent` (`session-server/src/server.rs:144-145`). A message tagged HidEvent with any payload is forwarded. `SessionControl` messages from a commander are ignored.
- **The relay does not use `SessionManager`.** The running relay keeps its own `sessions` map, so the session manager's refresh and sweep never run there.
- **Event session ids.** The commander tags every event with a fresh random id (`commander/src/client.rs:58`), not the session's id.
- **Idle expiry is strict.** A session expires when its idle time is strictly greater than the timeout (`session-server/src/session.rs:34`).
- **Huge timeouts wrap.** `timeout_mins as i64` (`session-server/src/session.rs:33`) wraps for timeouts of 2^63 minutes and more. The timeout turns negative, and every session not dated in the future is expired at once. `Sessions.TouchedIsNotExpired` states exactly when a session touched now survives.
- **No token check on the relay.** The handshake does not validate a JWT. `session-server/src/server.rs:64` leaves that to the repository's `DESIGN.md`, which is not part of this model.

## Model

| member | source | states |
|---|---|---|
| Protocol.DefaultModifiers | shared/src/protocol.rs:149-155 | `KeyModifiers::default()` holds no modifier: shift, control, alt and super are all false. |
| Protocol.NewMessage | shared/src/protocol.rs:214-221 | `Message::new` keeps the type, session id and payload it is given and stamps the current time. |
| Protocol.AuthRequest | shared/src/protocol.rs:224-235 | The result is tagged Auth, has no session id, and its payload is an `AuthMessage::Request` with the given username, password, client type and client id. The tag matches the payload variant. |
| Protocol.HidEventMessage | shared/src/protocol.rs:238-244 | The result is tagged HidEvent with `session_id == Some(id)` and payload `HidEvent(e)`. The tag matches the payload. |
| Protocol.SessionControlMessageOf | shared/src/protocol.rs:247-253 | The result is tagged SessionControl, keeps the given session id and carries the control message. The tag matches the payload. |
| Protocol.StatusMessageOf | shared/src/protocol.rs:256-262 | The result is tagged Status, keeps the given session id and carries the status. The tag matches the payload. |
| Sessions.NewSession | session-server/src/session.rs:17-26 | A new session records the given ids and has `created_at == last_activity == now`. |
| Sessions.UpdateActivity | session-server/src/session.rs:28-30 | Only `last_activity` changes, and it becomes `now`. |
| Sessions.AsI64 | session-server/src/session.rs:33 | `timeout_mins as i64` is the `i64` congruent to the timeout modulo 2^64. It is non-negative exactly for timeouts below 2^63. |
| Sessions.IsExpired | session-server/src/session.rs:32-35 | Below 2^63 minutes, a session is expired iff its idle time is strictly longer than the timeout. From 2^63 on, every session whose last activity is not in the future is expired. |
| Sessions.TouchedIsNotExpired | session-server/src/session.rs:32-35 | A session touched at `now` is not expired at `now` exactly when the timeout is below 2^63 minutes. |
| Sessions.ExpiryPersists | session-server/src/session.rs:32-35 | Once a session is expired, it stays expired at every later instant. |
| Sessions.OneSessionPerClient | session-server/src/session.rs:40-43 | Under the manager's invariant, two sessions driving the same HID client are the same session. |
| Sessions.MirroredSameSize | session-server/src/session.rs:40-43 | Under the invariant, the client index has exactly as many entries as the session table. |
| Sessions.SessionManager.constructor | session-server/src/session.rs:46-48 | A new manager is empty and satisfies the invariant. |
| Sessions.SessionManager.CreateSession | session-server/src/session.rs:50-63 | A HID client that already has a session gets `Err("HID client … is already in a session")`, and both maps stay unchanged. Otherwise the new session is filed under the fresh id in both maps, the count grows by one, and the invariant holds. |
| Sessions.SessionManager.EndSession | session-server/src/session.rs:65-72 | A present session is removed from both maps and returned. An absent id returns None and changes nothing, so ending twice is ending once. The id is absent afterwards and the invariant holds. |
| Sessions.SessionManager.GetSession | session-server/src/session.rs:74-76 | The result is found exactly when the id is in the table, and then it is the session with that id. |
| Sessions.SessionManager.GetSessionByClient | session-server/src/session.rs:78-81 | The result is Some exactly when the client is in the index, and then it is the stored session driving that client. |
| Sessions.SessionManager.ListSessions | session-server/src/session.rs:105-107 | The listed sessions are exactly the stored ones. |
| Sessions.SessionManager.UpdateSessionActivity | session-server/src/session.rs:83-87 | A present session's `last_activity` becomes `now`. A missing id is a silent no-op. Nothing else changes. |
| Sessions.SessionManager.CleanupExpiredSessions | session-server/src/session.rs:89-103 | Returns, once each, exactly the sessions found expired at the time read when visiting each. Removes them and their client entries, keeps every other session as it was, and preserves the invariant. |
| Sessions.SweepVisit | session-server/src/session.rs:92-99 | The retain step: visiting one id removes it exactly when its session has expired. |
| Sessions.ReportVisit | session-server/src/session.rs:92-99 | The collect step: visiting one id adds its session to the returned list exactly when it has expired, and the list still holds no session twice. |
| Sessions.DropClient | session-server/src/session.rs:94 | Dropping a session removes exactly its HID client's index entry. |
| Sessions.SweptMirrored | session-server/src/session.rs:92-100 | Keeping part of the table, with the index entries that point into it, keeps the two maps mutually inverse. |
| Relay.FirstMessage | session-server/src/server.rs:66-90 | No text as the first frame gives NoText. Text that does not decode gives Unparseable. The result is a HID client hello iff the text decodes to a message tagged SessionControl carrying CreateSession, with its id and name. It is a commander hello iff the message carries JoinSession, with its target. The same payload under any other tag registers nothing. |
| Relay.CommanderStep | session-server/src/server.rs:141-171 | A close or an error stops the loop. A text whose message is tagged HidEvent is forwarded verbatim. Everything else is skipped. |
| Relay.ForwardedTexts | session-server/src/server.rs:140-173 | The texts the commander loop forwards are all HidEvent-tagged texts the commander sent. There are no more of them than there are frames. |
| Relay.ForwardedTextsAppend | session-server/src/server.rs:140-173 | Over a stretch with no close or error, forwarding distributes over concatenation: frames that come later are forwarded later. |
| Relay.AllHidEventsForwardedInOrder | session-server/src/server.rs:142-155 | When every frame is a HidEvent text, exactly those texts are forwarded, unchanged and in arrival order. |
| Relay.Addressed | session-server/src/server.rs:147-149 | Each text is addressed, in order, to the one connection. |
| Relay.LoopAdvances | session-server/src/server.rs:140-173 | A frame that does not end the loop adds its own contribution to the writes, followed by what the rest of the stream contributes. |
| Relay.LoopStops | session-server/src/server.rs:163-171 | A close or an error contributes nothing further. |
| Relay.ServerState.constructor | session-server/src/server.rs:18-26 | The state starts with empty maps and no writes. |
| Relay.ServerState.RegisterHidClient | session-server/src/server.rs:93-97 | The connection is filed under the client id and replaces any holder. Nothing else changes. |
| Relay.ServerState.RegisterCommander | session-server/src/server.rs:99-103 | The connection is filed under the commander id and replaces any holder. Nothing else changes. |
| Relay.ServerState.OpenSession | session-server/src/server.rs:133-134 | `(commander, target)` is inserted under the session id unconditionally. Nothing else changes. |
| Relay.ServerState.ForwardFromCommander | session-server/src/server.rs:141-171 | One frame: a HidEvent text is written, verbatim, to the target's current connection if it has one. Anything else writes nothing. The loop stops exactly on a close or an error. |
| Relay.ServerState.CommanderLoop | session-server/src/server.rs:139-173 | The HidEvent texts up to the first close or error reach the target verbatim and in order, or are all dropped if the target is not registered. No map changes. |
| Relay.ServerState.EndCommanderSessions | session-server/src/server.rs:175-176 | Every session equal to `(commander, target)` is removed. All others are kept. |
| Relay.ServerState.RemoveHidClient | session-server/src/server.rs:126-127 | Whatever is filed under the client id is removed. The sessions map is not touched. |
| Relay.ServerState.ServeCommander | session-server/src/server.rs:131-178 | The session is opened, the texts are forwarded as above, and then the pair's sessions are dropped. The commander stays registered. |
| Relay.ServerState.ServeHidClient | session-server/src/server.rs:105-129 | Frames are read up to a close or an error. Then the client id is unregistered and nothing else changes. |
| Relay.ServerState.HandleConnection | session-server/src/server.rs:58-91 | Unparseable first text is an error. No text, or any other message, registers nothing. CreateSession registers a HID client, serves it, then unregisters it. JoinSession registers the commander under its peer address and serves it. |
| Relay.StaleHidDisconnectUnregistersNewer | session-server/src/server.rs:93-95 | Two HID clients claim one id. The first one's disconnect unregisters the second, and a later event for that id is dropped. |
| Relay.CommanderEventReachesTarget | session-server/src/server.rs:140-155 | A registered target receives the commander's HidEvent text verbatim. Once the commander disconnects, its session is gone. |
| Auth.Timestamp | shared/src/auth.rs:73-74 | chrono's `timestamp()` gives the whole seconds containing the instant, rounded toward negative infinity. |
| Auth.TimestampShift | shared/src/auth.rs:67 | Adding whole seconds to an instant adds them to its timestamp. |
| Auth.TokenClaims | shared/src/auth.rs:66-76 | `exp == iat + token_expiry_hours * 3600`, and `iat` is the current second. `sub`, `client_type`, `client_id` and `jti` are copied. |
| Auth.GenerateToken | shared/src/auth.rs:60-80 | The encoder's token for those claims, or its error as `JwtEncoding`. |
| Auth.ValidateToken | shared/src/auth.rs:83-93 | The result is TokenExpired iff the decoded `exp` is before the current second. It is Ok iff the token decodes and has not expired, and then carries the decoded claims. A decoder error passes through as `JwtEncoding`. |
| Auth.TokenLifetime | shared/src/auth.rs:60-93 | A token the decoder reads back is accepted up to and including its expiry second and reported expired from the next second on. |
| Auth.NewUser | shared/src/auth.rs:120-130 | The result is an active user with the given name, the hasher's hash and no last login. A hasher error becomes `PasswordHashing`. |
| Auth.VerifyPassword | shared/src/auth.rs:133-139 | An inactive user gets `Ok(false)`. For an active user the result is `Ok(true)` exactly when the verifier accepts, and an error exactly when the verifier fails. |
| Auth.UpdateLastLogin | shared/src/auth.rs:142-144 | Only `last_login` changes, and it becomes `now`. |
| Auth.UserStore.constructor | shared/src/auth.rs:156-158 | The store starts empty. |
| Auth.UserStore.AddUser | shared/src/auth.rs:161-163 | The user is stored under its username and replaces any user of that name. `get_user` then returns it. |
| Auth.UserStore.GetUser | shared/src/auth.rs:166-168 | The result is found exactly when the name is stored, and then it is that user. |
| Auth.UserStore.Authenticate | shared/src/auth.rs:176-191 | An unknown name gets `Ok(false)` and leaves the store unchanged. Otherwise the result is the user's `verify_password` answer. Only `Ok(true)` records the login time, and only then does the store change. |
| Auth.UserStore.CreateDefaultAdmin | shared/src/auth.rs:194-198 | Adds `admin` with password `admin123`. On a hasher error it reports the error and changes nothing. |
| Auth.InactiveUserIsRejected | shared/src/auth.rs:133-136 | A deactivated user never authenticates, and their record stays as it was. |
| InputCapture.ToAsciiUppercase | commander/src/input_capture.rs:221 | Only `a`–`z` change, each to the letter 32 code points lower. |
| InputCapture.CharToKeycode | commander/src/input_capture.rs:220-261 | A character maps to a key iff it is an ASCII letter, a digit or the blank. The key is the one typed with the character's upper-case form. Punctuation and non-ASCII map to None. |
| InputCapture.CharToKeycodeIsKeyChar | commander/src/input_capture.rs:220-261 | `char_to_keycode(c) == Some(k)` iff `k` is typed with the upper-case form of `c`. This covers letters to the same letter, digits to `Key0`–`Key9` and the blank to `Space`. |
| InputCapture.KeyCharIsMapped | commander/src/input_capture.rs:222-258 | Every typeable key is reached from its own character. |
| InputCapture.MappedIsKeyChar | commander/src/input_capture.rs:222-258 | Every character the table maps is its key's own character. |
| InputCapture.CaseInsensitive | commander/src/input_capture.rs:221 | `char_to_keycode(c) == char_to_keycode(to_ascii_uppercase(c))`. |
| InputCapture.KeyStroke | commander/src/input_capture.rs:105-123 | A press followed by the release of the same key, both with default modifiers. |
| InputCapture.LineEvents | commander/src/input_capture.rs:103-125 | A line sends only key events with no modifier held, at most two per character. |
| InputCapture.MappedKeys | commander/src/input_capture.rs:104-106 | Every key a line types can be typed from the console, and the key of every mappable character of the line is among them. There are at most as many keys as characters. |
| InputCapture.LineEventsArePairs | commander/src/input_capture.rs:103-125 | A line sends exactly `2 × (mappable characters)` events. Event `2j` is the press and event `2j+1` the release of the `j`-th mappable character's key. |
| InputCapture.MacEvents | commander/src/input_capture.rs:101-141 | The macOS capture sends only key events with no modifier held. |
| InputCapture.WindowsEvents | commander/src/input_capture.rs:184-210 | The Windows capture sends only key events with no modifier held. |
| InputCapture.MacAddsEnterPerLine | commander/src/input_capture.rs:127-140 | The macOS variant sends exactly two more events per line read than the Windows variant. |
| InputCapture.MacLineEndsWithEnter | commander/src/input_capture.rs:103-140 | A macOS line sends `2 × (mappable characters) + 2` events, ending with an Enter press and then an Enter release. |
| InputCapture.LinesRead | commander/src/input_capture.rs:101-102 | The number of lines read successfully is at most the number of read attempts. It equals that number iff no read failed, and it is 0 iff every read failed. |
| InputCapture.SendLine | commander/src/input_capture.rs:103-125 | The per-character loop appends exactly the line's strokes. |
| InputCapture.CaptureKeyboardInputMac | commander/src/input_capture.rs:99-143 | The reading loop sends exactly the macOS expansion of the lines read. A line that fails to read sends nothing. |
| InputCapture.CaptureKeyboardInputWindows | commander/src/input_capture.rs:182-211 | The reading loop sends exactly the Windows expansion, with no Enter. |
| CommanderClient.ConvertInputToHid | commander/src/client.rs:117-132 | The conversion never returns None and keeps the variant. |
| CommanderClient.ConversionRoundTrips | commander/src/client.rs:117-132 | The captured event is recovered from its protocol event, so no field is lost. |
| CommanderClient.ConversionIsOnto | commander/src/client.rs:117-132 | Every protocol event is the conversion of some captured event. |
| CommanderClient.ConversionKeepsFields | commander/src/client.rs:119-130 | Field by field: x, y and absolute; button, pressed and position; both deltas and position; key, pressed and all four modifier flags. |
| CommanderClient.TypedLineConverts | commander/src/client.rs:128-130 | Every event of a typed line converts to a key event for the same key. |
| CommanderClient.JoinRequest | commander/src/client.rs:30-35 | The join request is a session-less SessionControl message carrying `JoinSession(target)`. |
| CommanderClient.JoinRequestIsCommanderHello | commander/src/client.rs:30-38 | Under a round-tripping codec, the relay reads the join frame as a commander handshake for the same target. |
| CommanderClient.EventMessage | commander/src/client.rs:56-60 | The message for a captured event is tagged HidEvent under the fresh id and stamped with the time it is built. Its payload is a protocol event from which the captured event is recovered. |
| CommanderClient.CapturedEventIsForwarded | commander/src/client.rs:56-65 | Under a round-tripping codec, every event frame the commander writes is forwarded by the relay unchanged, and it decodes back to the captured event. |
| Hid.KeycodeToCg | hid-client/src/hid.rs:190-213 | `keycode_to_cg` never fails. |
| Hid.KeycodeToVk | hid-client/src/hid.rs:388-410 | `keycode_to_vk` never fails. |
| Hid.UnnamedKeysTypeSpace | hid-client/src/hid.rs:206-209 | On both platforms, every key outside the thirteen named ones falls back to the space key. On macOS, the keys typing Space's code are exactly Space and the unnamed keys. |
| Hid.TablesTranslate | hid-client/src/hid.rs:192-209 | Each platform's key table is the other's followed by a fixed translation between Core Graphics codes and virtual keys. |
| Hid.KeyTablesAgree | hid-client/src/hid.rs:192-209 | Two keys share a Core Graphics code iff they share a virtual key. |
| Hid.MacMouseMove | hid-client/src/hid.rs:87-115 | The result is a `MouseMoved` event at the given point. |
| Hid.MacMoveIgnoresAbsolute | hid-client/src/hid.rs:90-95 | Absolute and relative moves produce the same event. |
| Hid.MacMouseClick | hid-client/src/hid.rs:117-156 | X1 and X2 are refused, and nothing else is. The point is (x, y) when both coordinates are present and (0, 0) otherwise. |
| Hid.MacKeyEvent | hid-client/src/hid.rs:167-188 | The result is key-down for a press and key-up for a release, with the table's code, and never fails. |
| Hid.MacEventType | hid-client/src/hid.rs:125-133 | X1 and X2 have no event type. Any other button gets that button's event, a down event exactly for a press. |
| Hid.WindowsButtonFlag | hid-client/src/hid.rs:291-299 | X1 and X2 have no flag. Any other button gets that button's flag, a down flag exactly for a press. |
| Hid.ClickTablesAgree | hid-client/src/hid.rs:118-133 | On both platforms, Left, Right and Middle select that button's event, which is a down event exactly when `pressed` is true. Both platforms refuse X1 and X2. |
| Hid.WindowsMoveInput | hid-client/src/hid.rs:258-271 | The input carries MOVE, plus ABSOLUTE iff `absolute` is true. dx and dy are the coordinates and `mouseData` is 0. |
| Hid.WindowsMouseMove | hid-client/src/hid.rs:256-282 | One move input is submitted. The move fails iff `SendInput` inserts nothing. |
| Hid.WindowsMouseClick | hid-client/src/hid.rs:284-321 | An absolute move is submitted first iff both coordinates are present, and a failed move ends the click. X1 and X2 are then refused. Any other button's single flag is submitted, and the click fails iff `SendInput` inserts nothing. |
| Hid.WheelData | hid-client/src/hid.rs:332 | `(delta * 120) as u32` agrees with the product modulo 2^32. Whenever the product fits in an `i32`, the wheel amount Windows reads back as signed is exactly `delta * 120`. |
| Hid.WheelProductFits | hid-client/src/hid.rs:332 | The product fits in an `i32` exactly for deltas between −17 895 697 and 17 895 697. |
| Hid.WindowsMouseScroll | hid-client/src/hid.rs:323-361 | A vertical wheel input is submitted iff `delta_y ≠ 0`, and comes first. A horizontal one is submitted iff `delta_x ≠ 0`, and comes last. Each carries `WheelData(delta)`, and the scroll always succeeds. |
| Hid.WindowsKeyInput | hid-client/src/hid.rs:365-375 | The keyboard input carries the table's virtual key, flagged down exactly for a press. |
| Hid.WindowsKeyEvent | hid-client/src/hid.rs:363-386 | That one keyboard input is submitted. The key event fails with `SendFailed` iff `SendInput` inserts nothing. |

## Left out

- **I/O and concurrency.** WebSocket accept and connect, framing, `tokio::spawn`, and the `Mutex`/`RwLock` guards are left out. Interleavings of concurrent connections are too, including the HID loop holding its own socket lock while a commander tries to write to it. Each connection is modelled running alone.
- **Failed writes to a HID client.** A write that fails is logged and the loop goes on. The model records every attempted write in `sent`.
- **Foreign libraries.** serde derivation, bcrypt, JWT signing and decoding (including the library's own expiry check and its leeway), Core Graphics event creation and posting, and `SendInput` are all parameters or not modelled. The keys of `AuthManager` live inside the encode and decode parameters.
- **Platform constants.** The numeric values of the Windows `VK_*` and `MOUSEEVENTF_*` constants are foreign. They are named constants here.
- **Arithmetic panics.** Token expiry hours that overflow `Duration::hours` panic in the code. The model computes a value for them.
- Sessions.IsExpired: the panic of `Duration::minutes` for timeouts whose signed reading is beyond about 1.5·10^14 minutes either way is not modelled. The model computes a timeout for them.
- Hid.WheelData: models the release-build wrap. A debug build panics on a product that overflows `i32`, and that panic is not modelled.
- **Closed channels.** When the receiver of the commander's input channel is dropped, the capture thread stops at the next failed send. The model's channel never closes.
- **Demo mouse task.** The 5-second demo mouse-move task in `commander/src/input_capture.rs:69-87` is not part of this model, and nor is the stdin prompt.
- **Commander run loop.** The I/O of `Commander::run`'s `select!` loop is not modelled. That covers writing frames, ending on a failed send or a server close, and receiving server messages. `handle_server_message` only logs. The join frame and the frame written for each captured event are modelled.
- **HID client side.** `hid-client/src/client.rs` and the `execute_event` dispatchers are not part of this model. The dispatchers only route each variant to the per-kind functions that are modelled. The macOS `mouse_scroll` only logs.
- **Unreachable branch.** The second macOS button match in `hid-client/src/hid.rs:132` cannot be reached after X1 and X2 are refused. It is modelled as the `UnsupportedCombination` branch.
- **Bootstrap files.** `session-server/src/config.rs`, all `main.rs` files, `shared/src/error.rs` and `shared/src/lib.rs` only load configuration, bootstrap the programs or re-export items.
- Sessions.SessionManager.ListSessions: the order of the code's `Vec` follows hash-map iteration. The model returns a set.
- Sessions.SessionManager.CleanupExpiredSessions: the order of the returned sessions follows hash-map iteration in the code. The model only states which sessions are returned, each once.
- Relay.ServerState.HandleConnection: models one connection at a time. The shared maps are not exposed to concurrent updates.
