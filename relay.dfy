/**
 * The running relay (session-server/src/server.rs): three maps shared by all
 * connections — HID clients by client id, commanders by peer address, and
 * sessions as (commander id, target client id) pairs — and the per-connection
 * handshake, receive loops and cleanups that update them.
 *
 * A connection's socket is reduced to the frames it yields, in order; what
 * the server writes to a HID client's socket is appended to the `sent` log.
 * JSON decoding is the `decode` parameter (serde_json::from_str::<Message>).
 */
module Relay {
  import opened Wrappers
  import opened Protocol

  /** One item of a WebSocket receive stream. */
  datatype Frame =
    | Text(text: string)   // Ok(Text)
    | Close                // Ok(Close)
    | OtherFrame           // Ok(Binary | Ping | Pong | Frame)
    | Failed               // Err(_)

  /** A `SocketAddr` as `to_string` renders it. */
  type PeerAddr = string

  /** A registered connection: the peer's address and the identity of its socket. */
  datatype ClientConnection = ClientConnection(peer: PeerAddr, socket: nat)

  /** One text frame written by the server to a connection. */
  datatype Delivery = Delivery(to: ClientConnection, text: string)

  /** The only way `handle_connection` returns an error. */
  datatype ConnectionError = FirstMessageUnparseable

  /** How `handle_connection` dispatches on the first frame. */
  datatype Handshake =
    | NoText                                              // stream ended, failed, or a non-text frame
    | Unparseable                                         // text that is not a Message
    | HidClientHello(clientId: string, clientName: Option<string>)
    | CommanderHello(targetClientId: string)
    | Unexpected                                          // any other well-formed message

  /** The message the first frame decodes to, if it is a text that decodes. */
  function FirstDecoded(frames: seq<Frame>, decode: string -> Option<Message>): Option<Message> {
    if |frames| == 0 || !frames[0].Text? then None else decode(frames[0].text)
  }

  /** A message tagged SessionControl that carries the control `c`. */
  predicate IsControl(m: Message, c: SessionControlMessage) {
    m.messageType == MessageType.SessionControl && m.payload == MessagePayload.SessionControl(c)
  }

  /**
   * The first frame decides the connection's role: a HID client or a
   * commander registers exactly through a text that decodes to a message
   * tagged SessionControl carrying CreateSession or JoinSession; the same
   * payload under any other tag, or any other control, registers nothing.
   */
  function FirstMessage(frames: seq<Frame>, decode: string -> Option<Message>): (h: Handshake)
    ensures h == NoText <==> |frames| == 0 || !frames[0].Text?
    ensures h == Unparseable <==> |frames| > 0 && frames[0].Text? && decode(frames[0].text).None?
    ensures h.HidClientHello? ==>
      FirstDecoded(frames, decode).Some? && IsControl(FirstDecoded(frames, decode).value, CreateSession(h.clientId, h.clientName))
    ensures h.CommanderHello? ==>
      FirstDecoded(frames, decode).Some? && IsControl(FirstDecoded(frames, decode).value, JoinSession(h.targetClientId))
    ensures forall clientId, clientName ::
      FirstDecoded(frames, decode).Some? && IsControl(FirstDecoded(frames, decode).value, CreateSession(clientId, clientName))
      ==> h == HidClientHello(clientId, clientName)
    ensures forall target ::
      FirstDecoded(frames, decode).Some? && IsControl(FirstDecoded(frames, decode).value, JoinSession(target))
      ==> h == CommanderHello(target)
  {
    if |frames| == 0 || !frames[0].Text? then NoText
    else match decode(frames[0].text)
      case None => Unparseable
      case Some(m) =>
        if m.messageType == MessageType.SessionControl && m.payload.SessionControl? then
          match m.payload.control
          case CreateSession(clientId, clientName) => HidClientHello(clientId, clientName)
          case JoinSession(target) => CommanderHello(target)
          case _ => Unexpected
        else Unexpected
  }

  /** What the commander loop does with one frame. */
  datatype Step = Forward(text: string) | Skip | Stop

  /** A text whose decoded message is tagged HidEvent (its payload is not looked at). */
  predicate IsHidEventText(text: string, decode: string -> Option<Message>) {
    decode(text).Some? && decode(text).value.messageType == MessageType.HidEvent
  }

  /**
   * One iteration of the commander loop: close and error stop it, a text
   * tagged HidEvent is passed on verbatim, and everything else is skipped.
   */
  function CommanderStep(frame: Frame, decode: string -> Option<Message>): (step: Step)
    ensures step.Stop? <==> Ends(frame)
    ensures step.Forward? <==> frame.Text? && IsHidEventText(frame.text, decode)
    ensures step.Forward? ==> step.text == frame.text
  {
    match frame
    case Text(t) => if IsHidEventText(t, decode) then Forward(t) else Skip
    case Close => Stop
    case Failed => Stop
    case OtherFrame => Skip
  }

  /**
   * The texts the commander loop forwards from `frames`: every HidEvent
   * text, unchanged and in arrival order, up to the first close or error.
   */
  function ForwardedTexts(frames: seq<Frame>, decode: string -> Option<Message>): (texts: seq<string>)
    ensures |texts| <= |frames|
    ensures forall t :: t in texts ==> Text(t) in frames && IsHidEventText(t, decode)
    decreases |frames|
  {
    if |frames| == 0 then []
    else match CommanderStep(frames[0], decode)
      case Stop => []
      case Skip => ForwardedTexts(frames[1..], decode)
      case Forward(t) => [t] + ForwardedTexts(frames[1..], decode)
  }

  /** A frame that ends a receive loop. */
  predicate Ends(f: Frame) {
    f.Close? || f.Failed?
  }

  /** The text one frame contributes to the forwarded stream. */
  function StepTexts(frame: Frame, decode: string -> Option<Message>): seq<string> {
    if CommanderStep(frame, decode).Forward? then [frame.text] else []
  }

  /** Unfolds `ForwardedTexts` at position `i`. */
  lemma ForwardedTextsAt(frames: seq<Frame>, i: nat, decode: string -> Option<Message>)
    requires i < |frames|
    ensures ForwardedTexts(frames[i..], decode)
         == if Ends(frames[i]) then [] else StepTexts(frames[i], decode) + ForwardedTexts(frames[i + 1..], decode)
  {
    assert frames[i..][0] == frames[i] && frames[i..][1..] == frames[i + 1..];
  }

  /** Forwarding composes: frames after an uninterrupted stretch are forwarded after it. */
  lemma {:induction false} ForwardedTextsAppend(a: seq<Frame>, b: seq<Frame>, decode: string -> Option<Message>)
    requires forall i :: 0 <= i < |a| ==> !Ends(a[i])
    ensures ForwardedTexts(a + b, decode) == ForwardedTexts(a, decode) + ForwardedTexts(b, decode)
    decreases |a|
  {
    if |a| > 0 {
      assert (a + b)[0] == a[0];
      assert (a + b)[1..] == a[1..] + b;
      ForwardedTextsAppend(a[1..], b, decode);
    } else {
      assert a + b == b;
    }
  }

  /**
   * Order preservation: when every frame is a HidEvent text, the target is
   * sent exactly those texts, in the order the commander sent them.
   */
  lemma {:induction false} AllHidEventsForwardedInOrder(frames: seq<Frame>, decode: string -> Option<Message>)
    requires forall i :: 0 <= i < |frames| ==> frames[i].Text? && IsHidEventText(frames[i].text, decode)
    ensures |ForwardedTexts(frames, decode)| == |frames|
    ensures forall i :: 0 <= i < |frames| ==> ForwardedTexts(frames, decode)[i] == frames[i].text
    decreases |frames|
  {
    if |frames| > 0 {
      AllHidEventsForwardedInOrder(frames[1..], decode);
    }
  }

  /** Texts addressed to one connection, in order. */
  function Addressed(to: ClientConnection, texts: seq<string>): (ds: seq<Delivery>)
    ensures |ds| == |texts|
    ensures forall i :: 0 <= i < |texts| ==> ds[i] == Delivery(to, texts[i])
    decreases |texts|
  {
    if |texts| == 0 then [] else [Delivery(to, texts[0])] + Addressed(to, texts[1..])
  }

  lemma AddressedAppend(to: ClientConnection, a: seq<string>, b: seq<string>)
    ensures Addressed(to, a + b) == Addressed(to, a) + Addressed(to, b)
  {
  }

  /** Texts for a target: addressed to its registered connection, or dropped when it has none. */
  function Routed(hidClients: map<string, ClientConnection>, target: string, texts: seq<string>): seq<Delivery> {
    if target in hidClients then Addressed(hidClients[target], texts) else []
  }

  lemma RoutedAppend(hidClients: map<string, ClientConnection>, target: string, a: seq<string>, b: seq<string>)
    ensures Routed(hidClients, target, a + b) == Routed(hidClients, target, a) + Routed(hidClients, target, b)
  {
    if target in hidClients {
      AddressedAppend(hidClients[target], a, b);
    }
  }

  /** The loop invariant survives a frame that does not end the loop. */
  lemma LoopAdvances(before: seq<Delivery>, after: seq<Delivery>, h: map<string, ClientConnection>, target: string,
                     frames: seq<Frame>, i: nat, decode: string -> Option<Message>, total: seq<Delivery>)
    requires i < |frames| && !Ends(frames[i])
    requires before + Routed(h, target, ForwardedTexts(frames[i..], decode)) == total
    requires after == before + Routed(h, target, StepTexts(frames[i], decode))
    ensures after + Routed(h, target, ForwardedTexts(frames[i + 1..], decode)) == total
  {
    var step, rest := StepTexts(frames[i], decode), ForwardedTexts(frames[i + 1..], decode);
    ForwardedTextsAt(frames, i, decode);
    RoutedAppend(h, target, step, rest);
    SeqAssoc(before, Routed(h, target, step), Routed(h, target, rest));
  }

  lemma SeqAssoc<T>(a: seq<T>, b: seq<T>, c: seq<T>)
    ensures (a + b) + c == a + (b + c)
  {
  }

  /** A frame that ends the loop leaves nothing more to forward. */
  lemma LoopStops(sent: seq<Delivery>, h: map<string, ClientConnection>, target: string,
                  frames: seq<Frame>, i: nat, decode: string -> Option<Message>, total: seq<Delivery>)
    requires i < |frames| && Ends(frames[i])
    requires sent + Routed(h, target, ForwardedTexts(frames[i..], decode)) == total
    ensures sent + Routed(h, target, StepTexts(frames[i], decode)) == total
  {
    ForwardedTextsAt(frames, i, decode);
    assert StepTexts(frames[i], decode) == [];
    assert sent + [] == sent;
  }

  /** The sessions left after the commander cleanup removes every `(commanderId, target)` entry. */
  function WithoutPair(sessions: map<Uuid, (string, string)>, commanderId: string, target: string): map<Uuid, (string, string)> {
    map id | id in sessions && sessions[id] != (commanderId, target) :: sessions[id]
  }

  class ServerState {
    var hidClients: map<string, ClientConnection>
    var commanders: map<string, ClientConnection>
    var sessions: map<Uuid, (string, string)>
    /** Every text frame the server has written to a HID client, in write order. */
    var sent: seq<Delivery>

    /** `ServerState::default()`. */
    constructor ()
      ensures hidClients == map[] && commanders == map[] && sessions == map[] && sent == []
    {
      hidClients, commanders, sessions, sent := map[], map[], map[], [];
    }

    /** `register_hid_client`: files the connection under the client id, replacing any holder. */
    method RegisterHidClient(clientId: string, conn: ClientConnection, clientName: Option<string>)
      modifies this
      ensures hidClients == old(hidClients)[clientId := conn]
      ensures commanders == old(commanders) && sessions == old(sessions) && sent == old(sent)
    {
      hidClients := hidClients[clientId := conn];
    }

    /** `register_commander`: files the connection under the commander id, replacing any holder. */
    method RegisterCommander(commanderId: string, conn: ClientConnection)
      modifies this
      ensures commanders == old(commanders)[commanderId := conn]
      ensures hidClients == old(hidClients) && sessions == old(sessions) && sent == old(sent)
    {
      commanders := commanders[commanderId := conn];
    }

    /**
     * The session insertion that opens `serve_commander`: unconditional,
     * whether or not the target is registered or already driven.
     */
    method OpenSession(sessionId: Uuid, commanderId: string, target: string)
      modifies this
      ensures sessions == old(sessions)[sessionId := (commanderId, target)]
      ensures hidClients == old(hidClients) && commanders == old(commanders) && sent == old(sent)
    {
      sessions := sessions[sessionId := (commanderId, target)];
    }

    /**
     * One turn of the commander loop: a HidEvent text goes, verbatim, to the
     * target's current connection if it has one; every other frame is
     * skipped; a close or an error ends the loop.
     */
    method ForwardFromCommander(target: string, frame: Frame, decode: string -> Option<Message>) returns (stop: bool)
      modifies this
      ensures stop <==> Ends(frame)
      ensures sent == old(sent) + Routed(hidClients, target, StepTexts(frame, decode))
      ensures hidClients == old(hidClients) && commanders == old(commanders) && sessions == old(sessions)
    {
      match frame {
        case Text(t) =>
          var decoded := decode(t);
          if decoded.Some? && decoded.value.messageType == MessageType.HidEvent {
            if target in hidClients {
              sent := sent + [Delivery(hidClients[target], t)];
            }
          }
          stop := false;
        case Close =>
          stop := true;
        case Failed =>
          stop := true;
        case OtherFrame =>
          stop := false;
      }
    }

    /** The cleanup closing `serve_commander`: drops every session equal to the pair. */
    method EndCommanderSessions(commanderId: string, target: string)
      modifies this
      ensures sessions == WithoutPair(old(sessions), commanderId, target)
      ensures hidClients == old(hidClients) && commanders == old(commanders) && sent == old(sent)
    {
      sessions := map id | id in sessions && sessions[id] != (commanderId, target) :: sessions[id];
    }

    /** The cleanup closing `serve_hid_client`: whatever is filed under the id goes. */
    method RemoveHidClient(clientId: string)
      modifies this
      ensures hidClients == old(hidClients) - {clientId}
      ensures commanders == old(commanders) && sessions == old(sessions) && sent == old(sent)
    {
      hidClients := hidClients - {clientId};
    }

    /**
     * The receive loop of `serve_commander` with no other connection active:
     * the HidEvent texts up to the first close or error reach the target,
     * verbatim and in order, or are all dropped if it is not registered.
     */
    method CommanderLoop(target: string, frames: seq<Frame>, decode: string -> Option<Message>)
      modifies this
      ensures sent == old(sent) + Routed(old(hidClients), target, ForwardedTexts(frames, decode))
      ensures hidClients == old(hidClients) && commanders == old(commanders) && sessions == old(sessions)
    {
      ghost var h := hidClients;
      ghost var total := sent + Routed(h, target, ForwardedTexts(frames, decode));
      var i := 0;
      while i < |frames|
        invariant 0 <= i <= |frames|
        invariant hidClients == h && commanders == old(commanders) && sessions == old(sessions)
        invariant sent + Routed(h, target, ForwardedTexts(frames[i..], decode)) == total
      {
        ghost var before := sent;
        var stop := ForwardFromCommander(target, frames[i], decode);
        if stop {
          LoopStops(before, h, target, frames, i, decode, total);
          return;
        }
        LoopAdvances(before, sent, h, target, frames, i, decode, total);
        i := i + 1;
      }
    }

    /**
     * `serve_commander` with no other connection active: opens the session,
     * runs the loop, then drops the pair's sessions. The commander stays
     * registered.
     */
    method ServeCommander(commanderId: string, target: string, frames: seq<Frame>,
                          decode: string -> Option<Message>, sessionId: Uuid)
      modifies this
      ensures sent == old(sent) + Routed(old(hidClients), target, ForwardedTexts(frames, decode))
      ensures sessions == WithoutPair(old(sessions)[sessionId := (commanderId, target)], commanderId, target)
      ensures hidClients == old(hidClients) && commanders == old(commanders)
    {
      OpenSession(sessionId, commanderId, target);
      CommanderLoop(target, frames, decode);
      EndCommanderSessions(commanderId, target);
    }

    /**
     * `serve_hid_client`: reads (and ignores) frames up to the first close
     * or error, then removes whatever connection is filed under the id.
     */
    method ServeHidClient(clientId: string, frames: seq<Frame>)
      modifies this
      ensures hidClients == old(hidClients) - {clientId}
      ensures commanders == old(commanders) && sessions == old(sessions) && sent == old(sent)
    {
      var i := 0;
      while i < |frames| && !Ends(frames[i])
        invariant 0 <= i <= |frames|
      {
        i := i + 1;
      }
      RemoveHidClient(clientId);
    }

    /**
     * `handle_connection` for one connection while no other is active: the
     * first frame decides the role, then that role's loop and cleanup run
     * over the remaining frames.
     */
    method HandleConnection(conn: ClientConnection, frames: seq<Frame>,
                            decode: string -> Option<Message>, sessionId: Uuid)
      returns (r: Result<(), ConnectionError>)
      modifies this
      ensures r == (if FirstMessage(frames, decode).Unparseable? then Err(FirstMessageUnparseable) else Ok(()))
      ensures match FirstMessage(frames, decode)
        case HidClientHello(clientId, _) =>
          && hidClients == old(hidClients) - {clientId}
          && commanders == old(commanders) && sessions == old(sessions) && sent == old(sent)
        case CommanderHello(target) =>
          && commanders == old(commanders)[conn.peer := conn]
          && sessions == WithoutPair(old(sessions)[sessionId := (conn.peer, target)], conn.peer, target)
          && sent == old(sent) + Routed(old(hidClients), target, ForwardedTexts(frames[1..], decode))
          && hidClients == old(hidClients)
        case _ =>
          && hidClients == old(hidClients) && commanders == old(commanders)
          && sessions == old(sessions) && sent == old(sent)
    {
      var handshake := FirstMessage(frames, decode);
      match handshake {
        case NoText =>
          return Ok(());
        case Unparseable =>
          return Err(FirstMessageUnparseable);
        case HidClientHello(clientId, clientName) =>
          RegisterHidClient(clientId, conn, clientName);
          ServeHidClient(clientId, frames[1..]);
          return Ok(());
        case CommanderHello(target) =>
          RegisterCommander(conn.peer, conn);
          ServeCommander(conn.peer, target, frames[1..], decode, sessionId);
          return Ok(());
        case Unexpected =>
          return Ok(());
      }
    }
  }

  /**
   * Two HID clients claim the same id; the first one's disconnect unfiles
   * the second, still-connected client, and later events for that id are
   * dropped.
   */
  method StaleHidDisconnectUnregistersNewer(first: ClientConnection, second: ClientConnection, commander: ClientConnection,
                                            decode: string -> Option<Message>, hidText: string, sessionId: Uuid)
    returns (st: ServerState)
    requires IsHidEventText(hidText, decode)
    ensures "T1" !in st.hidClients
    ensures st.sent == []
  {
    st := new ServerState();
    st.RegisterHidClient("T1", first, None);
    st.RegisterHidClient("T1", second, None);
    st.ServeHidClient("T1", [Close]);
    st.ServeCommander(commander.peer, "T1", [Text(hidText)], decode, sessionId);
  }

  /**
   * A registered target receives the commander's HidEvent text verbatim,
   * and the commander's session is gone once the commander disconnects.
   */
  method CommanderEventReachesTarget(target: ClientConnection, commander: ClientConnection,
                                     decode: string -> Option<Message>, hidText: string, sessionId: Uuid)
    returns (st: ServerState)
    requires IsHidEventText(hidText, decode)
    ensures st.sent == [Delivery(target, hidText)]
    ensures st.sessions == map[]
    ensures st.commanders == map[commander.peer := commander]
  {
    st := new ServerState();
    st.RegisterHidClient("T1", target, None);
    st.RegisterCommander(commander.peer, commander);
    st.ServeCommander(commander.peer, "T1", [Text(hidText), Close], decode, sessionId);
    assert ForwardedTexts([Text(hidText), Close], decode) == [hidText];
  }
}
