/**
 * The page script of the custom client: the status line and connect button
 * that `setStatus` draws, the transcript that `appendText` grows, and the
 * module-level connection state (`ws`, `connected`, the decoder worker and
 * the microphone) that the connect/disconnect lifecycle and the socket's
 * listeners update.
 */
module CustomClient {
  import opened Wrappers
  import opened Bytes
  import Protocol

  /** A child of the transcript element: whether it has class `model-text`, and its text. */
  datatype Paragraph = Paragraph(modelText: bool, text: string)

  /** `WebSocket.readyState`. */
  datatype ReadyState = Connecting | Open | Closing | Closed

  /**
   * What `setStatus` writes: the status dot's class, the status text, the
   * orb's `active` class, and the connect button's text, `danger` class and
   * `disabled` flag.
   */
  datatype StatusView = StatusView(dot: string, statusText: string, orbActive: bool,
                                   buttonText: string, danger: bool, disabled: bool)

  /** `labels[status] || status`. */
  function Label(status: string): (text: string)
    ensures status == "disconnected" ==> text == "Disconnected"
    ensures status == "connecting" ==> text == "Connecting..."
    ensures status == "connected" ==> text == "Connected"
    ensures status != "disconnected" && status != "connecting" && status != "connected" ==> text == status
  {
    if status == "disconnected" then "Disconnected"
    else if status == "connecting" then "Connecting..."
    else if status == "connected" then "Connected"
    else status
  }

  /**
   * `setStatus` as written: the "connected" branch never assigns
   * `connectBtn.disabled`, so the button keeps whatever the previous call
   * left there.
   */
  function RenderAsWritten(prev: StatusView, status: string): (v: StatusView)
    ensures v.dot == status && v.statusText == Label(status)
    ensures v.orbActive <==> status == "connected"
    ensures v.buttonText == "Disconnect" <==> status == "connected"
    ensures status == "connected" ==> v.disabled == prev.disabled
    ensures status != "connected" ==> (v.disabled <==> status == "connecting")
  {
    var common := prev.(dot := status, statusText := Label(status), orbActive := status == "connected");
    if status == "connected" then
      common.(buttonText := "Disconnect", danger := true)
    else
      common.(buttonText := if status == "connecting" then "Connecting..." else "Connect",
              danger := false, disabled := status == "connecting")
  }

  /**
   * Every session goes through "connecting" before "connected", and the
   * button then reads "Disconnect" but stays disabled.
   */
  lemma DisconnectButtonStaysDisabled(prev: StatusView)
    ensures var v := RenderAsWritten(RenderAsWritten(prev, "connecting"), "connected");
            v.buttonText == "Disconnect" && v.disabled
  {
  }

  /**
   * `setStatus` as evidently intended: the button is disabled exactly while
   * connecting, and offers to disconnect exactly while connected. The view
   * no longer depends on the previous one.
   */
  function Render(status: string): (v: StatusView)
    ensures v.dot == status && v.statusText == Label(status)
    ensures v.disabled <==> status == "connecting"
    ensures v.orbActive <==> status == "connected"
    ensures v.danger <==> status == "connected"
    ensures v.buttonText == "Disconnect" <==> status == "connected"
    ensures v.buttonText == "Connecting..." <==> status == "connecting"
  {
    StatusView(status, Label(status), status == "connected",
               if status == "connected" then "Disconnect"
               else if status == "connecting" then "Connecting..." else "Connect",
               status == "connected", status == "connecting")
  }

  /** The correction touches nothing but the button's `disabled` flag in the "connected" branch. */
  lemma RenderCorrectsOnlyDisabled(prev: StatusView, status: string)
    ensures RenderAsWritten(prev, status) ==
              if status == "connected" then Render(status).(disabled := prev.disabled) else Render(status)
  {
  }

  /** The text of the transcript, paragraph after paragraph. */
  function FullText(ps: seq<Paragraph>): string
  {
    if ps == [] then "" else ps[0].text + FullText(ps[1..])
  }

  lemma {:induction false} FullTextSnoc(ps: seq<Paragraph>, p: Paragraph)
    ensures FullText(ps + [p]) == FullText(ps) + p.text
  {
    if ps != [] {
      assert (ps + [p])[1..] == ps[1..] + [p];
      FullTextSnoc(ps[1..], p);
    }
  }

  /**
   * `appendText`: the last paragraph grows if it is model text, otherwise a
   * new model-text paragraph is added.
   */
  function Appended(ps: seq<Paragraph>, text: string): (r: seq<Paragraph>)
    ensures |r| > 0 && r[|r| - 1].modelText
    ensures |text| <= |r[|r| - 1].text| && r[|r| - 1].text[|r[|r| - 1].text| - |text|..] == text
    ensures ps != [] ==> |ps| - 1 < |r| && r[..|ps| - 1] == ps[..|ps| - 1]
  {
    if ps != [] && ps[|ps| - 1].modelText then
      ps[..|ps| - 1] + [Paragraph(true, ps[|ps| - 1].text + text)]
    else
      ps + [Paragraph(true, text)]
  }

  /** Either way the transcript's text gains exactly `text` at its end. */
  lemma AppendedText(ps: seq<Paragraph>, text: string)
    ensures FullText(Appended(ps, text)) == FullText(ps) + text
  {
    if ps != [] && ps[|ps| - 1].modelText {
      var init, last := ps[..|ps| - 1], ps[|ps| - 1];
      assert ps == init + [last];
      FullTextSnoc(init, last);
      FullTextSnoc(init, Paragraph(true, last.text + text));
    } else {
      FullTextSnoc(ps, Paragraph(true, text));
    }
  }

  /**
   * A model-text last paragraph grows by `text` in place; otherwise every
   * paragraph is kept as it was and one model-text paragraph holding exactly
   * `text` is added after them.
   */
  lemma AppendedShape(ps: seq<Paragraph>, text: string)
    ensures var r := Appended(ps, text);
            && |r| == (if ps != [] && ps[|ps| - 1].modelText then |ps| else |ps| + 1)
            && (ps != [] ==> r[..|ps| - 1] == ps[..|ps| - 1])
            && r[|r| - 1].modelText
            && (ps != [] && ps[|ps| - 1].modelText ==> r[|ps| - 1].text == ps[|ps| - 1].text + text)
            && (!(ps != [] && ps[|ps| - 1].modelText) ==> r[..|ps|] == ps && r[|ps|] == Paragraph(true, text))
  {
    var r := Appended(ps, text);
    if ps != [] && !ps[|ps| - 1].modelText {
      assert r[..|ps| - 1] == ps[..|ps| - 1];
    }
  }

  /** The connect button disconnects when connected or while the socket is still connecting. */
  predicate ClickDisconnects(connected: bool, ws: Option<ReadyState>)
  {
    connected || ws == Some(Connecting)
  }

  /** The module-level state of the page script. */
  class Client {
    var ws: Option<ReadyState>
    var connected: bool
    var decoder: bool       // `decoderWorker !== null`
    var micActive: bool     // `startMic` called and `stopMic` not since
    var view: StatusView
    var transcript: seq<Paragraph>

    /** Every view on screen is the one `setStatus` draws for its own status. */
    ghost predicate Valid()
      reads this
    {
      view == Render(view.dot)
    }

    /** Page load: nothing connected, then `setStatus('disconnected')`; `page` is the transcript's markup. */
    constructor (page: seq<Paragraph>)
      ensures Valid()
      ensures ws == None && !connected && !decoder && !micActive
      ensures view == Render("disconnected") && transcript == page
    {
      ws := None;
      connected := false;
      decoder := false;
      micActive := false;
      transcript := page;
      view := Render("disconnected");
    }

    method SetStatus(status: string)
      modifies this`view
      ensures view == Render(status) && Valid()
    {
      view := Render(status);
    }

    method AppendText(text: string)
      modifies this`transcript
      ensures transcript == Appended(old(transcript), text)
      ensures FullText(transcript) == FullText(old(transcript)) + text
    {
      AppendedText(transcript, text);
      transcript := Appended(transcript, text);
    }

    method ClearTranscript()
      modifies this`transcript
      ensures transcript == [] && FullText(transcript) == ""
    {
      transcript := [];
    }

    /**
     * `connect`, from where the audio context is ready: clear the
     * transcript, show "connecting", start a fresh decoder and open a socket.
     */
    method Connect()
      modifies this`transcript, this`view, this`decoder, this`ws
      ensures Valid()
      ensures transcript == [] && view == Render("connecting")
      ensures decoder && ws == Some(Connecting)
    {
      ClearTranscript();
      SetStatus("connecting");
      decoder := true;
      ws := Some(Connecting);
    }

    /** The socket's `open` listener. */
    method OnOpen()
      modifies this`view, this`ws
      ensures Valid() && view == Render("connecting")
      ensures ws == if old(ws).Some? then Some(Open) else None
    {
      SetStatus("connecting");
      if ws.Some? {
        ws := Some(Open);
      }
    }

    /**
     * The socket's `message` listener; `utf8` is the text decoder. `pages`
     * is what is posted to the decoder worker.
     */
    method OnMessage(data: seq<byte>, utf8: seq<byte> -> string) returns (pages: Option<seq<byte>>)
      requires Valid()
      modifies this`connected, this`view, this`micActive, this`transcript
      ensures Valid()
      ensures pages.Some? <==> Protocol.Decode(data).Audio? && decoder
      ensures pages.Some? ==> pages.value == data[1..]
      ensures match Protocol.Decode(data)
              case Handshake =>
                connected && micActive && view == Render("connected") && transcript == old(transcript)
              case Text(t) =>
                transcript == Appended(old(transcript), utf8(t)) && unchanged(this`connected, this`micActive, this`view)
              case ErrorText(t) =>
                transcript == Appended(old(transcript), "[Error] " + utf8(t))
                && unchanged(this`connected, this`micActive, this`view)
              case _ => unchanged(this)
    {
      pages := None;
      match Protocol.Decode(data)
      case Handshake =>
        connected := true;
        SetStatus("connected");
        micActive := true;
      case Audio(d) =>
        if decoder {
          pages := Some(d);
        }
      case Text(t) =>
        AppendText(utf8(t));
      case ErrorText(t) =>
        AppendText("[Error] " + utf8(t));
      case _ =>
    }

    /** The socket's `close` listener; `ws` itself is left in place. */
    method OnClose()
      modifies this`connected, this`view, this`micActive, this`decoder, this`ws
      ensures Valid()
      ensures !connected && !micActive && !decoder && view == Render("disconnected")
      ensures ws == if old(ws).Some? then Some(Closed) else None
    {
      connected := false;
      SetStatus("disconnected");
      micActive := false;
      decoder := false;
      if ws.Some? {
        ws := Some(Closed);
      }
    }

    /** `disconnect`. */
    method Disconnect()
      modifies this`ws, this`micActive, this`connected, this`view, this`decoder
      ensures Valid()
      ensures ws == None && !micActive && !connected && !decoder
      ensures view == Render("disconnected")
    {
      ws := None;
      micActive := false;
      connected := false;
      SetStatus("disconnected");
      decoder := false;
    }

    /** The connect button's click listener. */
    method OnConnectClick()
      modifies this`transcript, this`view, this`decoder, this`ws, this`connected, this`micActive
      ensures Valid()
      ensures ClickDisconnects(old(connected), old(ws)) ==>
                ws == None && !connected && !decoder && view == Render("disconnected")
                && !micActive && transcript == old(transcript)
      ensures !ClickDisconnects(old(connected), old(ws)) ==>
                ws == Some(Connecting) && decoder && transcript == [] && view == Render("connecting")
                && connected == old(connected) && micActive == old(micActive)
    {
      if connected || ws == Some(Connecting) {
        Disconnect();
      } else {
        Connect();
      }
    }

    /**
     * The recorder's `ondataavailable`: an Opus chunk is sent, as an audio
     * message, only while the socket is open.
     */
    method OnRecorderData(chunk: seq<byte>) returns (sent: Option<seq<byte>>)
      ensures sent.Some? <==> ws == Some(Open)
      ensures sent.Some? ==> sent.value == Protocol.EncodeAudio(chunk)
      ensures sent.Some? ==> Protocol.Decode(sent.value) == Protocol.Audio(chunk)
    {
      if ws == Some(Open) {
        sent := Some(Protocol.EncodeAudio(chunk));
        Protocol.AudioRoundTrip(chunk);
      } else {
        sent := None;
      }
    }
  }

  /** With the corrected `setStatus`, the button is disabled exactly while "connecting" is shown. */
  lemma ButtonDisabledOnlyWhileConnecting(c: Client)
    requires c.Valid()
    ensures c.view.disabled <==> c.view.dot == "connecting"
    ensures c.view.buttonText == "Disconnect" ==> !c.view.disabled
  {
  }
}
