/**
 * The messages the bridge exchanges with the Material Deck plugin, as values. The JSON text
 * encoding of these values (`json.dumps` / `json.loads`) is not modelled.
 */
module Protocol {
  import opened Wrappers

  /** A JSON value, as found in action settings. */
  datatype Json =
    | JNull
    | JBool(b: bool)
    | JInt(n: int)
    | JStr(s: string)
    | JList(items: seq<Json>)
    | JObject(fields: map<string, Json>)

  /** A JSON object of settings, such as `action_settings` or `payload.settings`. */
  type Settings = map<string, Json>

  /** `{'column': ..., 'row': ...}`. */
  datatype Grid = Grid(column: int, row: int)

  /** `{'columns': ..., 'rows': ...}`. */
  datatype Size = Size(columns: int, rows: int)

  /** Messages the bridge puts on the outbound queue. */
  datatype Outbound =
      /** `_create_will_display_payload`: a copy of the stored `init_data` with its `event`,
          `context`, `size`, `payload.coordinates`, merged `payload.settings`,
          `deviceIteration` and `device` filled in. */
    | WillDisplay(event: string, action: string, context: int, size: Size, coordinates: Grid,
                  settings: Settings, deviceIteration: int, device: string)
      /** `_create_command_payload`: a `keyDown` / `keyUp` command. */
    | CommandEvent(action: string, event: string, context: int, coordinates: Grid,
                   settings: Settings, deviceIteration: int, device: string)
      /** The `willDisappear` message `md_action_changed` sends when a binding is removed. */
    | Removal(action: string, coordinates: Grid, context: int, device: string)

  /** The version the bridge reports in reply to `init`. */
  const ProtocolVersion: string := "1.4.2"

  /** The reply `analyze_md_message` returns: `CONNECTED_PAYLOAD`, `INITIALIZE_PAYLOAD` or `''`. */
  datatype Reply =
    | NoReply
    | Connected(target: string, kind: string, data: string)
    | Version(source: string, kind: string, version: string)

  const ConnectedPayload: Reply := Connected("MD", "connected", "SD")
  const InitializePayload: Reply := Version("SD", "version", ProtocolVersion)

  /** The `payload` object of an inbound event. Keys the source reads with `[...]` may be missing. */
  datatype Payload = Payload(title: string, id: Option<string>, image: Option<string>)

  /** A decoded inbound message; each field is absent when the JSON object lacks that key. */
  datatype Inbound = Inbound(target: Option<string>, kind: Option<string>, event: Option<string>,
                             context: Option<int>, payload: Option<Payload>)

  /** The exceptions the modelled code can raise. */
  datatype Error =
    | Malformed              // json.loads failed, or the message is not a JSON object
    | MissingKey(key: string) // KeyError
    | MissingPage(page: int)  // KeyError on `button_states[page]`
    | NoDeck                 // KeyError on `deck_api.state[_deck_id]`
    | FetchFailed(url: string) // request.urlopen raised
    | NotInitialised         // NameError: `_ui` or `_output_queue` is read before `init` binds it

  /** The reply selection of `analyze_md_message`. */
  function SelectReply(m: Inbound): (r: Reply)
    ensures r == ConnectedPayload <==> m.target == Some("server")
    ensures r == InitializePayload <==> m.target == Some("SD") && m.kind == Some("init")
    ensures r == NoReply <==> !(m.target == Some("server") || (m.target == Some("SD") && m.kind == Some("init")))
  {
    if m.target == Some("server") then ConnectedPayload
    else if m.target == Some("SD") && m.kind == Some("init") then InitializePayload
    else NoReply
  }

  /** True when the message is addressed to the deck and is not the `init` handshake. */
  predicate ToDeck(m: Inbound) {
    m.target == Some("SD") && m.kind != Some("init")
  }

  /** True when the message is an `SD` event named `name` (and not an `init`). */
  predicate IsSdEvent(m: Inbound, name: string) {
    ToDeck(m) && m.event == Some(name)
  }

  /**
   * The KeyError the event's handler raises on a missing key before it touches any button:
   * `setTitle` reads `payload`, then `context`; `setImage` and `setBufferImage` read
   * `payload`, then `payload.id`, then `context`. Other events have no handler.
   */
  function HandlerKeyError(m: Inbound): (r: Option<Error>)
    ensures r.Some? ==> m.event == Some("setTitle") || m.event == Some("setImage") || m.event == Some("setBufferImage")
    ensures (m.event == Some("setTitle") || m.event == Some("setImage") || m.event == Some("setBufferImage")) ==>
      && (m.payload.None? ==> r == Some(MissingKey("payload")))
      && (m.payload.Some? && m.event != Some("setTitle") && m.payload.value.id.None? ==> r == Some(MissingKey("id")))
      && (m.payload.Some? && (m.event == Some("setTitle") || m.payload.value.id.Some?) ==>
            r == if m.context.None? then Some(MissingKey("context")) else None)
  {
    if m.event == Some("setTitle") then
      if m.payload.None? then Some(MissingKey("payload"))
      else if m.context.None? then Some(MissingKey("context"))
      else None
    else if m.event == Some("setImage") || m.event == Some("setBufferImage") then
      if m.payload.None? then Some(MissingKey("payload"))
      else if m.payload.value.id.None? then Some(MissingKey("id"))
      else if m.context.None? then Some(MissingKey("context"))
      else None
    else None
  }
}
