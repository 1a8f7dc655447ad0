# streamdeck-ui-md-bridge: the translation layer, in Dafny

The bridge connects an Elgato Stream Deck, driven by the `streamdeck_ui` desktop
application, to the Material Deck module of Foundry VTT. This project models its translation
layer, `bridge.py`:

- the arithmetic between the deck's addressing, a (page, button index) pair, and the plugin's
  flat integer *context*, and the (column, row) grid position the payloads carry;
- the per-button `material_deck` binding kept inside the deck's button table: binding an
  action, changing its settings, removing it, and the soundboard and macro defaults that
  `_get_settings_for_action` writes back;
- the outbound FIFO of messages to the plugin, and the replies to `server` and `init`
  handshakes;
- the inbound `setTitle`, `setImage` and `setBufferImage` events, which update one button's
  text or icon. For images, the on-disk cache is reduced to the set of files that exist;
- the page walks. `load_md_buttons` rewires and announces the bound buttons of a page, and
  `_unload_md_buttons` says goodbye and resets them. `_on_page_changed` and the `set_page`
  override chain the two. `disconnect` puts the placeholder image on every bound button and
  keeps the bindings;
- the `_init_required` guard: before `init`, a guarded operation returns its default and
  changes nothing.

Layout:

- `wrappers.dfy`: `Option`, `Result` and `Outcome`.
- `coordinates.dfy`: context, page and grid maps, with their round-trip and bounds lemmas.
- `paths.dfy`: the file-system paths derived from the home directory.
- `protocol.dfy`: JSON values, outbound messages, replies, decoded inbound messages and errors.
- `deck.dfy`: the button table as a value.
  - Functions say what each operation does to one button and which message it produces.
  - `Walked` gives the table after a whole page walk or disconnect.
  - `PageMessages` gives the messages a walk sends.
  - The lemmas about binding, defaults and walks live here.
- `bridge.dfy`: class `Bridge`, holding the module's globals, the deck's table, the cache
  files and the queue.
  - Each state-changing function of `bridge.py` is a method that updates them in place; the
    pure maps are functions in `coordinates.dfy` and `paths.dfy`.
  - Each method is proved against the functions of `deck.dfy`.

The button table is a map from `Slot(page, index)` to the button's state. A sequence `order`
records the dictionary's insertion order. Every `_button_state` lookup is a `setdefault` that
may append a blank entry. Walks over a page visit that page's entries in insertion order. An
exception the source would raise becomes a `Fail`/`Failure` result naming the missing key,
the missing page dictionary, the missing deck or the failed download.

Three consequences of the code worth stating outright:

- Explicitly stored empty settings `{}` are refilled with the defaults on every call, because
  the code tests `if not action_settings`.
- Binding an action to a button that already has `init_data` keeps that `init_data` and
  overwrites only its `action`.
- A failed download in `setImage` propagates as an error, and the icon is not changed.

Before `init`, `_ui` and `_output_queue` are unbound. So `next_message` raises, and so does
every `SD` event other than `init`: either in its handler or in the redraw that follows it.
The model reports both failures as `NotInitialised`, unless the handler's own KeyError comes
first.

## Model

| member | source | states |
|---|---|---|
| Coordinates.IndexRoundTrip | bridge.py:283-288 | `_to_button_index(_to_context(i, p), p) == i` for every integer index and page |
| Coordinates.PageRoundTrip | bridge.py:283-292 | for 0 <= i < 32 and p >= 0, `_to_page` recovers p from `_to_context(i, p)`; for p < 0 and i > 0 the truncating `int(x/32)` gives p + 1 |
| Coordinates.ContextSplit | bridge.py:283-292 | every context is the context of (its `_to_page`, its `_to_button_index`); a non-negative context lands on page >= 0 at an index in [0, 32), a negative one on page <= 0 at an index in (-32, 0] |
| Coordinates.GridPosition | bridge.py:301-304 | column = i mod 8 lies in [0, 8), row * 8 + column == i, row < 4 when i < 32, and the row is non-negative exactly when i is |
| Coordinates.GridInjective | bridge.py:322-325 | two different button indices never get the same (column, row) |
| Paths.CachePathInjective | bridge.py:388-390 | two image ids share a cache file exactly when they are equal |
| Paths.CachePathNotPlaceholder | bridge.py:19-22 | no cache file is the Material Foundry placeholder image |
| Protocol.SelectReply | bridge.py:87-103 | the connected payload exactly for target `server`, the version payload exactly for target `SD` with type `init`, and the empty reply for every other message |
| Protocol.HandlerKeyError | bridge.py:357-385 | the KeyError each handler raises before touching a button: a missing `payload`, then (for images) a missing `id`, then a missing `context`; none when all are present or for an event without a handler |
| Deck.ContextSlotRoundTrip | bridge.py:360-361 | an event sent to the context a button announced (page >= 0, index in [0, 32)) addresses that very button, and every context is the announced context of the button it addresses |
| Deck.ResolveKeepsStored | bridge.py:333-343 | non-empty stored settings are returned unchanged and the entry is left as it was |
| Deck.ResolveDefaults | bridge.py:336-341 | with missing or empty settings, `soundboard` gets exactly `soundNr` = `_to_context(i + 1, p)`, `macro` gets exactly `macroMode` = `macroBoard` and `macroNumber` = `_to_context(i + 1, p)`, and any other action gets nothing |
| Deck.ResolveIdempotent | bridge.py:333-343 | once the defaults are written back, a second call returns the same settings and writes nothing new |
| Deck.BindKeepsExisting | bridge.py:167-185 | binding leaves the button bound with the new action, keeps an existing `init_data` apart from its action, keeps non-empty settings, text and icon, and wires a `keyDown` command for the action |
| Deck.BindFreshSoundboard | bridge.py:168-179 | binding an unbound button to `soundboard` seeds `displayName`/`displayIcon` and the sound number |
| Deck.BindIdempotent | bridge.py:167-187 | choosing the same action twice leaves the button as after the first time |
| Deck.UnbindAfterBind | bridge.py:188-203 | removing a binding reports the action it had and leaves the button unbound, with no text, icon or command |
| Deck.BoundAnnounces | bridge.py:295-313 | a bound button's `willAppear` carries its context, its grid position, the action, the page as `deviceIteration`, and the stored settings merged with the resolved action settings |
| Deck.MacroScenario | bridge.py:295-343 | binding button 3 of page 0 to `macro` announces context 3 at (3, 0) with the display flags and macro board 4 |
| Deck.WalkedUpToAt | bridge.py:245-257 | part way through a walk, the buttons already visited that the walk selects are changed, and every other button is as it was |
| Deck.WalkedAll | bridge.py:74-77 | a walk over every entry of the table gives the whole-table result |
| Deck.PageMessagesExact | bridge.py:245-257 | a page walk sends a message for a button exactly when it lies on the page and is bound with an `init_data`, and sends nothing else |
| Deck.PageMessagesShape | bridge.py:295-313 | every message of a page walk is a display message with that event, page, device and grid size, and its coordinates are the grid position of its context on that page |
| Deck.ReloadAnnouncesSame | bridge.py:234-257 | loading a page again announces the same buttons with the same payloads |
| Deck.ReturnAnnouncesSame | bridge.py:260-280 | unloading a page and loading it again announces the same buttons with the same payloads |
| Deck.WalkOtherPage | bridge.py:245-274 | a load or unload walk over page q leaves every button of any other page as it was |
| Deck.AwayAndBackAnnouncesSame | bridge.py:393-402 | switching from page p to another page q and back (unload p, load q, unload q, then load p) announces page p's buttons with the same payloads as loading p on the original table |
| Deck.DisconnectKeepsBindings | bridge.py:69-77 | after a disconnect every bound button shows the placeholder with no text and no command, unbound buttons are untouched, and every binding is kept |
| MdBridge.Bridge.constructor | bridge.py:27-31 | before `init` there is no deck id, no pipe, the bridge is not initialised and the queue is empty |
| MdBridge.Bridge.Init | bridge.py:50-66 | remembers the pipe, adopts the first deck id (keeping one already chosen) and marks the bridge initialised |
| MdBridge.Bridge.Touch | bridge.py:147-149 | a button lookup creates a blank entry at the end of the table when the button has none, and changes nothing else |
| MdBridge.Bridge.ResetButton | bridge.py:346-349 | the button gets empty text, an empty command and the given icon, and nothing else changes |
| MdBridge.Bridge.WriteMessage | bridge.py:352-354 | the message is appended to the back of the queue |
| MdBridge.Bridge.NextMessage | bridge.py:106-113 | before `init` it fails (the queue is unbound); otherwise nothing for an empty queue, or the oldest message, removed from the front |
| MdBridge.Bridge.GetSettingsForAction | bridge.py:333-343 | returns the resolved settings and stores them in the button's entry, creating the entry when missing |
| MdBridge.Bridge.CreateCommandPayload | bridge.py:316-330 | the command message for the action, context, grid position, resolved settings, page and deck, with the settings written back |
| MdBridge.Bridge.CreateWillDisplayPayload | bridge.py:295-313 | fails with a missing `init_data` and changes nothing; otherwise it builds the button's display message and writes the resolved settings back |
| MdBridge.Bridge.AnalyzeMdMessage | bridge.py:80-103 | an undecodable message fails; handshakes and messages not addressed to the deck get `SelectReply`'s reply and change nothing; before `init` a deck event fails with the handler's KeyError or `NotInitialised` and changes nothing; after `init` a missing key fails with no effect, an unhandled event replies empty, and each handled event succeeds exactly when its handler does, with that handler's effect on the button, the insertion order and the cache |
| MdBridge.Bridge.HandleSetTitle | bridge.py:357-362 | only the text of the button the context addresses changes, to the title; a missing payload or context fails with no effect |
| MdBridge.Bridge.HandleSetBufferImage | bridge.py:365-371 | the addressed button shows the cache file if that file exists, else keeps its icon; nothing is fetched; missing keys fail with no effect |
| MdBridge.Bridge.HandleSetImage | bridge.py:374-385 | downloads only when the path is not the current icon and its file does not exist; on success the icon is the cache path; a missing `image` or a failed download fails without changing the icon or the cache |
| MdBridge.Bridge.KeyUpCallback | bridge.py:116-133 | before `init` nothing happens; a bound button sends one `keyUp` command for its action; an unbound or empty entry sends nothing; a binding without `init_data` fails |
| MdBridge.Bridge.MdDataChanged | bridge.py:136-152 | undecodable text or an uninitialised bridge changes nothing; otherwise the settings are stored and the button is announced again, or the call fails with a missing `init_data` and nothing is queued |
| MdBridge.Bridge.MdActionChanged | bridge.py:155-205 | a non-empty action leaves the button as `Bound` and queues its `willAppear`; the empty action on a bound button leaves it `Unbound` and queues the removal carrying the previous action; otherwise only the lookup happens; nothing before `init` |
| MdBridge.Bridge.BindButton | bridge.py:167-187 | the button becomes `Bound` to the action and exactly one `willAppear` of the bound button is queued |
| MdBridge.Bridge.UnbindButton | bridge.py:188-203 | the binding is deleted, the button is reset, and one `willDisappear` with the previous action, grid position and context is queued |
| MdBridge.Bridge.GetMdAction | bridge.py:208-218 | the bound action, `''` when unbound and before `init` |
| MdBridge.Bridge.GetMdData | bridge.py:221-231 | the stored settings, created empty when missing; nothing before `init` |
| MdBridge.Bridge.LoadMdButtons | bridge.py:234-257 | no deck: nothing; missing page dictionary: fails; otherwise the table becomes the load walk's table and the page's announcements are queued in table order |
| MdBridge.Bridge.LoadStep | bridge.py:245-257 | one loop iteration: the table and queue go from the walk over the first i entries to the walk over i + 1 |
| MdBridge.Bridge.AnnounceButton | bridge.py:248-257 | a bound button gets its settings stored and its `keyDown` trampoline, and its `willAppear` is queued |
| MdBridge.Bridge.UnloadMdButtons | bridge.py:260-274 | no deck: nothing; missing page dictionary: fails; otherwise for each listed button of the page, in table order, its `willDisappear` is built, the button is reset, and then the message is queued |
| MdBridge.Bridge.UnloadStep | bridge.py:268-274 | one loop iteration of the unload walk, as for `LoadStep` |
| MdBridge.Bridge.RetireButton | bridge.py:271-274 | a bound button's `willDisappear` is queued and the button is reset |
| MdBridge.Bridge.OnPageChanged | bridge.py:277-280 | before `init` nothing; otherwise the old page is unloaded and then the new one loaded, failing on the first missing page |
| MdBridge.Bridge.SetPage | bridge.py:393-402 | the page is switched first, then `_on_page_changed` runs with the original and the new page |
| MdBridge.Bridge.Disconnect | bridge.py:69-77 | with no deck it fails; otherwise the table becomes the disconnect walk's table (placeholder on every bound button, bindings kept) |
| MdBridge.Bridge.DisconnectStep | bridge.py:74-77 | one loop iteration of the disconnect walk |

## Left out

- `md_listener.py`, `deck_listener.py`, `main.py` and `ui_proxy.py` are not part of this model. They are the websocket server, the named-pipe reader, start-up and the Qt wiring: network, OS I/O and concurrency.
- The busy-wait in `init` for a deck to appear is replaced by a precondition that a deck id is available.
- JSON text (`json.dumps`/`json.loads`) is not modelled. Messages are values. `md_data_changed` receives the decoded settings or nothing when decoding fails, and `analyze_md_message` receives the decoded message or nothing.
- `md_data_changed` with text that decodes to something other than an object (a list, a number) is not modelled; the decoded value is always a settings object.
- A `setTitle` payload without a `title` stores Python's `None` as the text; the model's title is always a string.
- `deck_gui.redraw_buttons`, `deck_api.export_config` and logging are left out: after `init` they do not touch the modelled state. Before `init`, the redraw raising is modelled as the `NotInitialised` failure.
- MdBridge.Bridge.AnalyzeMdMessage: before `init`, a handler works on the table of the empty deck id, which the model does not hold. A `setImage` there may still download into the cache, or fail on a missing `image` or a failed download, before the redraw raises. The model leaves the cache unchanged and reports `NotInitialised`.
- `init` is atomic in the model. In the source, `_output_queue` and `_ui` are bound before the wait for a deck, so `next_message` already works during that wait.
- The output queue is unbounded and never blocks; thread-safety of the queue is not modelled.
- The download is the boolean `fetchOk`. A partially written cache file after a failed read is not modelled, and neither is the cache directory creation.
- File paths are compared as strings; different spellings of the same file are not identified.
- `_to_page` and the grid row (`math.floor(button_index / 8)`) divide in floating point. The model uses exact integer truncation and floor, which agree whenever a double represents the quotient exactly.
- The deck id stands for the deck's presence in `deck_api.state`: an empty id means "not in the state", and a chosen deck is assumed to be in it.
- Only one deck is modelled. `key_up_callback`'s `deck_id` argument is taken to be the chosen deck, and its `state` argument only triggers a log line.
- The page-creating render that `streamdeck_ui`'s own `set_page` performs is not modelled; a page switch sees the table as it is.
- The stored `init_data.event` is not kept, because every payload built from it overwrites it.
- MdBridge.Bridge.SetPage: when a page dictionary is missing, the contract only says the call fails; `OnPageChanged` states those cases in full.
- MdBridge.Bridge.GetMdData: before `init`, the source returns `''` and the model returns nothing.
