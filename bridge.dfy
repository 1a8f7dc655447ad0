/**
 * The bridge proper: the module-level state of the translator (deck id, bridge pipe,
 * initialisation flag, outbound queue), the deck's button table it edits in place through
 * the device-management layer, and the image cache on disk, reduced to the set of files that
 * exist. Every method is proved against the value-level functions of module Deck.
 */
module MdBridge {
  import opened Wrappers
  import opened Protocol
  import opened Coordinates
  import opened Deck
  import Paths

  class Bridge {
    /** `_initialized`. */
    var initialized: bool
    /** `_deck_id`; empty until `init` has found a deck. */
    var deckId: string
    /** `_bridge_file`: the named pipe the trampoline writes to. */
    var bridgeFile: string
    /** The user's home directory, root of every path the bridge uses. */
    const home: string
    /** The deck's current page (`deck_api.get_page`). */
    var page: int
    /** The deck's button table (`deck_api.state[deck]['buttons']`). */
    var buttons: Table
    /** Insertion order of the table's entries. */
    var order: seq<Slot>
    /** Files present on disk; only the image cache's files matter here. */
    var files: set<string>
    /** `_output_queue`, front first. */
    var queue: seq<Outbound>

    ghost predicate Valid()
      reads this
    {
      TableOk(buttons, order) && (initialized <==> deckId != "")
    }

    /** The bridge before `init`: the deck's table, page and files are whatever the environment holds. */
    constructor (home: string, page: int, buttons: Table, order: seq<Slot>, files: set<string>)
      requires TableOk(buttons, order)
      ensures Valid() && !initialized && deckId == "" && bridgeFile == ""
      ensures this.home == home && this.page == page && this.buttons == buttons && this.order == order
      ensures this.files == files && queue == []
    {
      initialized := false;
      deckId := "";
      bridgeFile := "";
      this.home := home;
      this.page := page;
      this.buttons := buttons;
      this.order := order;
      this.files := files;
      queue := [];
    }

    /** `init`: remembers the pipe, adopts the first deck (keeping one already chosen) and marks the bridge ready. */
    method Init(bridgeFile: string, deckIds: seq<string>)
      requires Valid()
      requires deckId != "" || (deckIds != [] && deckIds[0] != "")
      modifies this`bridgeFile, this`deckId, this`initialized
      ensures Valid() && initialized && this.bridgeFile == bridgeFile
      ensures deckId == if old(deckId) != "" then old(deckId) else deckIds[0]
    {
      this.bridgeFile := bridgeFile;
      if deckId == "" {
        deckId := deckIds[0];
      }
      initialized := true;
    }

    // -------------------------------------------------------------------------
    // The device-management layer's per-button accessors

    /** `_button_state`: the lookup creates a blank entry for a button not yet in the table. */
    method Touch(s: Slot)
      requires Valid()
      modifies this`buttons, this`order
      ensures Valid() && s in buttons
      ensures buttons == old(buttons)[s := Get(old(buttons), s)]
      ensures order == TouchOrder(old(buttons), old(order), s)
    {
      if s !in buttons {
        TouchKeepsTableOk(buttons, order, s, Blank);
        buttons := buttons[s := Blank];
        order := order + [s];
      } else {
        assert buttons == buttons[s := buttons[s]];
      }
    }

    /** `deck_api.set_button_text`. */
    method SetText(s: Slot, text: string)
      requires Valid()
      modifies this`buttons, this`order
      ensures Valid()
      ensures buttons == old(buttons)[s := Get(old(buttons), s).(text := text)]
      ensures order == TouchOrder(old(buttons), old(order), s)
    {
      Touch(s);
      buttons := buttons[s := buttons[s].(text := text)];
    }

    /** `deck_api.set_button_icon`. */
    method SetIcon(s: Slot, icon: string)
      requires Valid()
      modifies this`buttons, this`order
      ensures Valid()
      ensures buttons == old(buttons)[s := Get(old(buttons), s).(icon := icon)]
      ensures order == TouchOrder(old(buttons), old(order), s)
    {
      Touch(s);
      buttons := buttons[s := buttons[s].(icon := icon)];
    }

    /** `deck_api.set_button_command`. */
    method SetCommand(s: Slot, command: ButtonCommand)
      requires Valid()
      modifies this`buttons, this`order
      ensures Valid()
      ensures buttons == old(buttons)[s := Get(old(buttons), s).(command := command)]
      ensures order == TouchOrder(old(buttons), old(order), s)
    {
      Touch(s);
      buttons := buttons[s := buttons[s].(command := command)];
    }

    /** `_reset_button`: empty text and command, the given icon. */
    method ResetButton(s: Slot, icon: string)
      requires Valid()
      modifies this`buttons, this`order
      ensures Valid()
      ensures buttons == old(buttons)[s := Reset(Get(old(buttons), s), icon)]
      ensures order == TouchOrder(old(buttons), old(order), s)
    {
      SetText(s, "");
      SetCommand(s, Shell(""));
      SetIcon(s, icon);
    }

    // -------------------------------------------------------------------------
    // The outbound queue

    /** `_write_message`. */
    method WriteMessage(m: Outbound)
      modifies this`queue
      ensures queue == old(queue) + [m]
    {
      queue := queue + [m];
    }

    /**
     * `next_message`: the oldest queued message, or nothing when the queue is empty. Before
     * `init` the queue is not bound yet and the call raises.
     */
    method NextMessage() returns (r: Result<Option<Outbound>, Error>)
      modifies this`queue
      ensures !initialized ==> r == Failure(NotInitialised) && queue == old(queue)
      ensures initialized && old(queue) == [] ==> r == Success(None) && queue == []
      ensures initialized && old(queue) != [] ==> r == Success(Some(old(queue)[0])) && queue == old(queue)[1..]
      ensures r.Success? ==> old(queue) == (if r.value.Some? then [r.value.value] else []) + queue
    {
      if !initialized {
        return Failure(NotInitialised);
      }
      if queue == [] {
        return Success(None);
      }
      r := Success(Some(queue[0]));
      queue := queue[1..];
    }

    // -------------------------------------------------------------------------
    // Payloads

    /** `_get_settings_for_action`: the button's settings, with the action's defaults written in when empty. */
    method GetSettingsForAction(action: string, s: Slot) returns (settings: Settings)
      requires Valid()
      modifies this`buttons, this`order
      ensures Valid()
      ensures settings == Resolve(MdOf(Get(old(buttons), s)), action, s)
      ensures buttons == old(buttons)[s := Get(old(buttons), s).(md := Some(WithSettings(MdOf(Get(old(buttons), s)), action, s)))]
      ensures order == TouchOrder(old(buttons), old(order), s)
    {
      Touch(s);
      var b := buttons[s];
      var md := b.md.GetOr(NoMd);
      settings := md.actionSettings.GetOr(map[]);
      if settings == map[] {
        if action == "soundboard" {
          settings := settings["soundNr" := JInt(ToContext(s.index + 1, s.page))];
        }
        if action == "macro" {
          settings := settings["macroMode" := JStr("macroBoard")];
          settings := settings["macroNumber" := JInt(ToContext(s.index + 1, s.page))];
        }
      }
      buttons := buttons[s := b.(md := Some(md.(actionSettings := Some(settings))))];
    }

    /** `_create_command_payload`. */
    method CreateCommandPayload(action: string, event: string, s: Slot) returns (m: Outbound)
      requires Valid()
      modifies this`buttons, this`order
      ensures Valid()
      ensures m == CommandMessage(action, event, s, Resolve(MdOf(Get(old(buttons), s)), action, s), deckId)
      ensures buttons == old(buttons)[s := Get(old(buttons), s).(md := Some(WithSettings(MdOf(Get(old(buttons), s)), action, s)))]
      ensures order == TouchOrder(old(buttons), old(order), s)
    {
      var settings := GetSettingsForAction(action, s);
      m := CommandMessage(action, event, s, settings, deckId);
    }

    /**
     * `_create_will_display_payload` for the `material_deck` entry of button `s`: raises
     * KeyError when the entry has no `init_data`.
     */
    method CreateWillDisplayPayload(s: Slot, event: string) returns (r: Result<Outbound, Error>)
      requires Valid() && s in buttons && buttons[s].md.Some?
      modifies this`buttons, this`order
      ensures Valid() && order == old(order)
      ensures !Listed(old(buttons[s])) ==> r == Failure(MissingKey("init_data")) && buttons == old(buttons)
      ensures Listed(old(buttons[s])) ==>
        && r == Success(Appear(old(buttons[s]), s, event, deckId))
        && buttons == old(buttons)[s := old(buttons[s]).(md := Some(WithSettings(old(buttons[s]).md.value, ActionOf(old(buttons[s])), s)))]
    {
      var md := buttons[s].md.value;
      if md.initData.None? {
        return Failure(MissingKey("init_data"));
      }
      var init := md.initData.value;
      var actionSettings := GetSettingsForAction(init.action, s);
      r := Success(DisplayMessage(init, actionSettings, s, event, deckId));
    }

    // -------------------------------------------------------------------------
    // Inbound messages

    /**
     * `analyze_md_message`: replies to handshakes and applies `SD` events to the deck. Before
     * `init`, an `SD` event fails: with the handler's KeyError, or else at the redraw.
     */
    method AnalyzeMdMessage(msg: Option<Inbound>, fetchOk: bool) returns (r: Result<Reply, Error>)
      requires Valid()
      modifies this`buttons, this`order, this`files
      ensures Valid()
      ensures msg.None? ==>
        r == Failure(Malformed) && buttons == old(buttons) && order == old(order) && files == old(files)
      ensures msg.Some? && !ToDeck(msg.value) ==>
        r == Success(SelectReply(msg.value)) && buttons == old(buttons) && order == old(order) && files == old(files)
      ensures msg.Some? && ToDeck(msg.value) && !initialized ==>
        && r == Failure(HandlerKeyError(msg.value).GetOr(NotInitialised))
        && buttons == old(buttons) && order == old(order) && files == old(files)
      ensures msg.Some? && ToDeck(msg.value) && initialized && HandlerKeyError(msg.value).Some? ==>
        && r == Failure(HandlerKeyError(msg.value).value)
        && buttons == old(buttons) && order == old(order) && files == old(files)
      ensures msg.Some? && ToDeck(msg.value) && initialized && !IsSdEvent(msg.value, "setTitle")
              && !IsSdEvent(msg.value, "setImage") && !IsSdEvent(msg.value, "setBufferImage") ==>
        r == Success(NoReply) && buttons == old(buttons) && order == old(order) && files == old(files)
      ensures msg.Some? && IsSdEvent(msg.value, "setTitle") && initialized && HandlerKeyError(msg.value).None? ==>
        && r == Success(NoReply) && files == old(files)
        && (var s := ContextSlot(msg.value.context.value);
            && buttons == old(buttons)[s := Get(old(buttons), s).(text := msg.value.payload.value.title)]
            && order == TouchOrder(old(buttons), old(order), s))
      ensures msg.Some? && IsSdEvent(msg.value, "setBufferImage") && initialized && HandlerKeyError(msg.value).None? ==>
        && r == Success(NoReply) && files == old(files)
        && (var s := ContextSlot(msg.value.context.value);
            var path := Paths.CachePath(home, msg.value.payload.value.id.value);
            var b := Get(old(buttons), s);
            && buttons == old(buttons)[s := b.(icon := if path in old(files) then path else b.icon)]
            && order == TouchOrder(old(buttons), old(order), s))
      ensures msg.Some? && IsSdEvent(msg.value, "setImage") && initialized && HandlerKeyError(msg.value).None? ==>
        var s := ContextSlot(msg.value.context.value);
        var b := Get(old(buttons), s);
        var path := Paths.CachePath(home, msg.value.payload.value.id.value);
        var image := msg.value.payload.value.image;
        var miss := path != b.icon && path !in old(files);
        && order == TouchOrder(old(buttons), old(order), s)
        && (miss && image.None? ==>
              r == Failure(MissingKey("image")) && buttons == old(buttons)[s := b] && files == old(files))
        && (miss && image.Some? && !fetchOk ==>
              r == Failure(FetchFailed(image.value)) && buttons == old(buttons)[s := b] && files == old(files))
        && (!miss || (image.Some? && fetchOk) ==>
              && r == Success(NoReply)
              && buttons == old(buttons)[s := b.(icon := path)]
              && files == old(files) + (if miss then {path} else {}))
    {
      if msg.None? {
        return Failure(Malformed);
      }
      var data := msg.value;
      if data.target == Some("server") {
        return Success(ConnectedPayload);
      }
      if data.target == Some("SD") {
        if data.kind == Some("init") {
          return Success(InitializePayload);
        }
        if !initialized {
          return Failure(HandlerKeyError(data).GetOr(NotInitialised));
        }
        var handled: Outcome<Error> := Pass;
        if data.event == Some("setTitle") {
          handled := HandleSetTitle(data);
        } else if data.event == Some("setImage") {
          handled := HandleSetImage(data, fetchOk);
        } else if data.event == Some("setBufferImage") {
          handled := HandleSetBufferImage(data);
        }
        if handled.Fail? {
          return Failure(handled.error);
        }
      }
      return Success(NoReply);
    }

    /** `_handle_set_tile`: the addressed button shows the title. */
    method HandleSetTitle(data: Inbound) returns (r: Outcome<Error>)
      requires Valid()
      modifies this`buttons, this`order
      ensures Valid()
      ensures data.payload.None? ==> r == Fail(MissingKey("payload")) && buttons == old(buttons) && order == old(order)
      ensures data.payload.Some? && data.context.None? ==>
        r == Fail(MissingKey("context")) && buttons == old(buttons) && order == old(order)
      ensures data.payload.Some? && data.context.Some? ==>
        && r == Pass
        && var s := ContextSlot(data.context.value);
           buttons == old(buttons)[s := Get(old(buttons), s).(text := data.payload.value.title)]
           && order == TouchOrder(old(buttons), old(order), s)
    {
      if data.payload.None? {
        return Fail(MissingKey("payload"));
      }
      var title := data.payload.value.title;
      if data.context.None? {
        return Fail(MissingKey("context"));
      }
      var p := ToPage(data.context.value);
      var s := Slot(p, ToButtonIndex(data.context.value, p));
      Touch(s);
      if title != buttons[s].text {
        SetText(s, title);
      } else {
        assert buttons[s].(text := title) == buttons[s];
      }
      r := Pass;
    }

    /** `_handle_set_buffer_image`: shows the cached image when its file exists; never fetches. */
    method HandleSetBufferImage(data: Inbound) returns (r: Outcome<Error>)
      requires Valid()
      modifies this`buttons, this`order
      ensures Valid()
      ensures data.payload.None? ==> r == Fail(MissingKey("payload")) && buttons == old(buttons) && order == old(order)
      ensures data.payload.Some? && data.payload.value.id.None? ==>
        r == Fail(MissingKey("id")) && buttons == old(buttons) && order == old(order)
      ensures data.payload.Some? && data.payload.value.id.Some? && data.context.None? ==>
        r == Fail(MissingKey("context")) && buttons == old(buttons) && order == old(order)
      ensures data.payload.Some? && data.payload.value.id.Some? && data.context.Some? ==>
        && r == Pass
        && var s := ContextSlot(data.context.value);
           var path := Paths.CachePath(home, data.payload.value.id.value);
           buttons == old(buttons)[s := Get(old(buttons), s).(icon := if path in files then path else Get(old(buttons), s).icon)]
           && order == TouchOrder(old(buttons), old(order), s)
    {
      if data.payload.None? {
        return Fail(MissingKey("payload"));
      }
      if data.payload.value.id.None? {
        return Fail(MissingKey("id"));
      }
      var cachePath := Paths.CachePath(home, data.payload.value.id.value);
      if data.context.None? {
        return Fail(MissingKey("context"));
      }
      var p := ToPage(data.context.value);
      var s := Slot(p, ToButtonIndex(data.context.value, p));
      Touch(s);
      if cachePath != buttons[s].icon && cachePath in files {
        SetIcon(s, cachePath);
      } else {
        assert buttons[s].(icon := buttons[s].icon) == buttons[s];
      }
      r := Pass;
    }

    /**
     * `_handle_set_image`: on a cache miss for an image the button does not already show,
     * fetches it into the cache (`fetchOk` says whether the download succeeds); then shows it.
     */
    method HandleSetImage(data: Inbound, fetchOk: bool) returns (r: Outcome<Error>)
      requires Valid()
      modifies this`buttons, this`order, this`files
      ensures Valid()
      ensures data.payload.None? ==>
        r == Fail(MissingKey("payload")) && buttons == old(buttons) && order == old(order) && files == old(files)
      ensures data.payload.Some? && data.payload.value.id.None? ==>
        r == Fail(MissingKey("id")) && buttons == old(buttons) && order == old(order) && files == old(files)
      ensures data.payload.Some? && data.payload.value.id.Some? && data.context.None? ==>
        r == Fail(MissingKey("context")) && buttons == old(buttons) && order == old(order) && files == old(files)
      ensures data.payload.Some? && data.payload.value.id.Some? && data.context.Some? ==>
        var s := ContextSlot(data.context.value);
        var b := Get(old(buttons), s);
        var path := Paths.CachePath(home, data.payload.value.id.value);
        var miss := path != b.icon && path !in old(files);
        && order == TouchOrder(old(buttons), old(order), s)
        && (miss && data.payload.value.image.None? ==>
              r == Fail(MissingKey("image")) && buttons == old(buttons)[s := b] && files == old(files))
        && (miss && data.payload.value.image.Some? && !fetchOk ==>
              r == Fail(FetchFailed(data.payload.value.image.value)) && buttons == old(buttons)[s := b] && files == old(files))
        && (!miss || (data.payload.value.image.Some? && fetchOk) ==>
              && r == Pass
              && buttons == old(buttons)[s := b.(icon := path)]
              && files == old(files) + (if miss then {path} else {}))
    {
      if data.payload.None? {
        return Fail(MissingKey("payload"));
      }
      if data.payload.value.id.None? {
        return Fail(MissingKey("id"));
      }
      var cachePath := Paths.CachePath(home, data.payload.value.id.value);
      if data.context.None? {
        return Fail(MissingKey("context"));
      }
      var p := ToPage(data.context.value);
      var s := Slot(p, ToButtonIndex(data.context.value, p));
      Touch(s);
      if cachePath != buttons[s].icon && cachePath !in files {
        if data.payload.value.image.None? {
          return Fail(MissingKey("image"));
        }
        if !fetchOk {
          return Fail(FetchFailed(data.payload.value.image.value));
        }
        files := files + {cachePath};
      }
      SetIcon(s, cachePath);
      r := Pass;
    }

    // -------------------------------------------------------------------------
    // Callbacks from the desktop UI and the deck

    /** `key_up_callback`: a released bound button sends a `keyUp` command for its action. */
    method KeyUpCallback(key: int) returns (r: Outcome<Error>)
      requires Valid()
      modifies this`buttons, this`order, this`queue
      ensures Valid()
      ensures !initialized ==> r == Pass && buttons == old(buttons) && order == old(order) && queue == old(queue)
      ensures initialized ==>
        var s := Slot(page, key);
        var b := Get(old(buttons), s);
        && order == TouchOrder(old(buttons), old(order), s)
        && (b.md.None? || b.md == Some(NoMd) ==>
              r == Pass && buttons == old(buttons)[s := b] && queue == old(queue))
        && (b.md.Some? && b.md != Some(NoMd) && !Listed(b) ==>
              r == Fail(MissingKey("init_data")) && buttons == old(buttons)[s := b] && queue == old(queue))
        && (Listed(b) ==>
              && r == Pass
              && buttons == old(buttons)[s := b.(md := Some(WithSettings(b.md.value, ActionOf(b), s)))]
              && queue == old(queue) + [CommandMessage(ActionOf(b), "keyUp", s, Resolve(b.md.value, ActionOf(b), s), deckId)])
    {
      if !initialized {
        return Pass;
      }
      var s := Slot(page, key);
      Touch(s);
      var mdInfo := buttons[s].md;
      if mdInfo.Some? && mdInfo.value != NoMd {
        if mdInfo.value.initData.None? {
          return Fail(MissingKey("init_data"));
        }
        var command := CreateCommandPayload(mdInfo.value.initData.value.action, "keyUp", s);
        WriteMessage(command);
      }
      r := Pass;
    }

    /**
     * `md_data_changed`: stores new action settings for the selected button and announces it
     * again. `parsed` is the decoded text, absent when it is not valid JSON.
     */
    method MdDataChanged(buttonIndex: int, parsed: Option<Settings>) returns (r: Outcome<Error>)
      requires Valid()
      modifies this`buttons, this`order, this`queue
      ensures Valid()
      ensures !initialized || parsed.None? ==>
        r == Pass && buttons == old(buttons) && order == old(order) && queue == old(queue)
      ensures initialized && parsed.Some? ==>
        var s := Slot(page, buttonIndex);
        var b := Get(old(buttons), s);
        var stored := b.(md := Some(MdOf(b).(actionSettings := Some(parsed.value))));
        && order == TouchOrder(old(buttons), old(order), s)
        && (!Listed(stored) ==>
              r == Fail(MissingKey("init_data")) && buttons == old(buttons)[s := stored] && queue == old(queue))
        && (Listed(stored) ==>
              && r == Pass
              && buttons == old(buttons)[s := stored.(md := Some(WithSettings(stored.md.value, ActionOf(b), s)))]
              && queue == old(queue) + [Appear(stored, s, "willAppear", deckId)])
    {
      if !initialized || parsed.None? {
        return Pass;
      }
      ghost var t0 := buttons;
      var s := Slot(page, buttonIndex);
      ghost var b := Get(t0, s);
      ghost var stored := b.(md := Some(MdOf(b).(actionSettings := Some(parsed.value))));
      Touch(s);
      var deckInfo := buttons[s].md.GetOr(NoMd);
      buttons := buttons[s := buttons[s].(md := Some(deckInfo.(actionSettings := Some(parsed.value))))];
      UpdateTwice(t0, s, b, stored);
      var display := CreateWillDisplayPayload(s, "willAppear");
      UpdateTwice(t0, s, stored, buttons[s]);
      if display.Failure? {
        return Fail(display.error);
      }
      WriteMessage(display.value);
      r := Pass;
    }

    /**
     * `md_action_changed`: a non-empty action binds the selected button (keeping what it had),
     * wires its trampoline and announces it; the empty action removes an existing binding,
     * resets the button and sends `willDisappear`.
     */
    method MdActionChanged(buttonIndex: int, action: string)
      requires Valid()
      modifies this`buttons, this`order, this`queue
      ensures Valid()
      ensures !initialized ==> buttons == old(buttons) && order == old(order) && queue == old(queue)
      ensures initialized ==>
        var s := Slot(page, buttonIndex);
        var b := Get(old(buttons), s);
        && order == TouchOrder(old(buttons), old(order), s)
        && (action != "" ==>
              var bound := Bound(b, s, action, deckId, Paths.PipeWriterScript(home), bridgeFile);
              && buttons == old(buttons)[s := bound]
              && queue == old(queue) + [Appear(bound, s, "willAppear", deckId)])
        && (action == "" && b.md.Some? ==>
              buttons == old(buttons)[s := Unbound(b)] && queue == old(queue) + [RemovalMessage(b, s, deckId)])
        && (action == "" && b.md.None? ==>
              buttons == old(buttons)[s := b] && queue == old(queue))
    {
      if !initialized {
        return;
      }
      ghost var t0 := buttons;
      var s := Slot(page, buttonIndex);
      ghost var b := Get(t0, s);
      Touch(s);
      if action != "" {
        BindButton(s, action);
        UpdateTwice(t0, s, b, Bound(b, s, action, deckId, Paths.PipeWriterScript(home), bridgeFile));
      } else if buttons[s].md.Some? {
        UnbindButton(s);
        UpdateTwice(t0, s, b, Unbound(b));
      }
    }

    /** The non-empty branch of `md_action_changed`: bind the button, wire it and announce it. */
    method BindButton(s: Slot, action: string)
      requires Valid() && s in buttons && action != ""
      modifies this`buttons, this`order, this`queue
      ensures Valid() && order == old(order)
      ensures var bound := Bound(old(buttons[s]), s, action, deckId, Paths.PipeWriterScript(home), bridgeFile);
        && buttons == old(buttons)[s := bound]
        && queue == old(queue) + [Appear(bound, s, "willAppear", deckId)]
    {
      ghost var t0 := buttons;
      var deckInfo := buttons[s].md.GetOr(NoMd);
      var initData := deckInfo.initData.GetOr(InitData(action, DefaultDisplaySettings)).(action := action);
      var md1 := deckInfo.(initData := Some(initData));
      ghost var b1 := t0[s].(md := Some(md1));
      buttons := buttons[s := buttons[s].(md := Some(md1))];
      var command := CreateCommandPayload(action, "keyDown", s);
      ghost var b2 := b1.(md := Some(WithSettings(md1, action, s)));
      UpdateTwice(t0, s, b1, b2);
      ghost var b3 := b2.(command := PipeWriter(Paths.PipeWriterScript(home), bridgeFile, command));
      SetCommand(s, PipeWriter(Paths.PipeWriterScript(home), bridgeFile, command));
      UpdateTwice(t0, s, b2, b3);
      assert b3 == Bound(t0[s], s, action, deckId, Paths.PipeWriterScript(home), bridgeFile);
      ResolveIdempotent(md1, action, s);
      var display := CreateWillDisplayPayload(s, "willAppear");
      UpdateTwice(t0, s, b3, b3);
      WriteMessage(display.value);
    }

    /** The empty-action branch of `md_action_changed` for a bound button: unbind, reset, remove. */
    method UnbindButton(s: Slot)
      requires Valid() && s in buttons && buttons[s].md.Some?
      modifies this`buttons, this`order, this`queue
      ensures Valid() && order == old(order)
      ensures buttons == old(buttons)[s := Unbound(old(buttons[s]))]
      ensures queue == old(queue) + [RemovalMessage(old(buttons[s]), s, deckId)]
    {
      var previousAction := match buttons[s].md.value.initData
        case Some(init) => init.action
        case None => "";
      buttons := buttons[s := buttons[s].(md := None)];
      ResetButton(s, "");
      WriteMessage(Removal(previousAction, Grid(Column(s.index), Row(s.index)), ToContext(s.index, s.page), deckId));
    }

    /** `get_md_action`: the selected button's bound action, `''` when unbound or before `init`. */
    method GetMdAction(buttonIndex: int) returns (action: string)
      requires Valid()
      modifies this`buttons, this`order
      ensures Valid()
      ensures !initialized ==> action == "" && buttons == old(buttons) && order == old(order)
      ensures initialized ==>
        var s := Slot(page, buttonIndex);
        && action == ActionOf(Get(old(buttons), s))
        && buttons == old(buttons)[s := Get(old(buttons), s)]
        && order == TouchOrder(old(buttons), old(order), s)
    {
      if !initialized {
        return "";
      }
      var s := Slot(page, buttonIndex);
      Touch(s);
      action := match buttons[s].md
        case Some(MdInfo(Some(init), _)) => init.action
        case _ => "";
    }

    /**
     * `get_md_data`: the selected button's action settings, created empty when missing;
     * absent before `init` (the source returns `''` there).
     */
    method GetMdData(buttonIndex: int) returns (data: Option<Settings>)
      requires Valid()
      modifies this`buttons, this`order
      ensures Valid()
      ensures !initialized ==> data == None && buttons == old(buttons) && order == old(order)
      ensures initialized ==>
        var s := Slot(page, buttonIndex);
        var b := Get(old(buttons), s);
        var settings := MdOf(b).actionSettings.GetOr(map[]);
        && data == Some(settings)
        && buttons == old(buttons)[s := b.(md := Some(MdOf(b).(actionSettings := Some(settings))))]
        && order == TouchOrder(old(buttons), old(order), s)
    {
      if !initialized {
        return None;
      }
      var s := Slot(page, buttonIndex);
      Touch(s);
      var deckInfo := buttons[s].md.GetOr(NoMd);
      var settings := deckInfo.actionSettings.GetOr(map[]);
      buttons := buttons[s := buttons[s].(md := Some(deckInfo.(actionSettings := Some(settings))))];
      data := Some(settings);
    }

    // -------------------------------------------------------------------------
    // Page walks

    /**
     * `load_md_buttons`: every listed button of the page (the current one when none is given)
     * gets its trampoline rewired and sends `willAppear`, in table order.
     */
    method LoadMdButtons(pageArg: Option<int>) returns (r: Outcome<Error>)
      requires Valid()
      modifies this`buttons, this`order, this`queue
      ensures Valid() && order == old(order)
      ensures deckId == "" ==> r == Pass && buttons == old(buttons) && queue == old(queue)
      ensures deckId != "" && !PageExists(old(buttons), pageArg.GetOr(page)) ==>
        r == Fail(MissingPage(pageArg.GetOr(page))) && buttons == old(buttons) && queue == old(queue)
      ensures deckId != "" && PageExists(old(buttons), pageArg.GetOr(page)) ==>
        && r == Pass
        && buttons == Walked(old(buttons), LoadWalk(pageArg.GetOr(page), deckId, Paths.PipeWriterScript(home), bridgeFile))
        && queue == old(queue) + PageMessages(old(buttons), order, pageArg.GetOr(page), "willAppear", deckId)
    {
      if deckId == "" {
        return Pass;
      }
      var p := pageArg.GetOr(page);
      if !PageExists(buttons, p) {
        return Fail(MissingPage(p));
      }
      ghost var t0 := buttons;
      ghost var q0 := queue;
      var script := Paths.PipeWriterScript(home);
      ghost var w := LoadWalk(p, deckId, script, bridgeFile);
      var i := 0;
      while i < |order|
        invariant 0 <= i <= |order|
        invariant Valid() && order == old(order)
        invariant buttons == WalkedUpTo(t0, order[..i], w)
        invariant queue == q0 + PageMessages(t0, order[..i], p, "willAppear", deckId)
      {
        LoadStep(i, p, script, t0, q0);
        i := i + 1;
      }
      assert order[..i] == order;
      WalkedAll(t0, order, w);
      r := Pass;
    }

    /** The body of the `load_md_buttons` loop for the `i`-th button of the table. */
    method LoadStep(i: nat, p: int, script: string, ghost t0: Table, ghost q0: seq<Outbound>)
      requires Valid() && i < |order|
      requires buttons == WalkedUpTo(t0, order[..i], LoadWalk(p, deckId, script, bridgeFile))
      requires queue == q0 + PageMessages(t0, order[..i], p, "willAppear", deckId)
      modifies this`buttons, this`order, this`queue
      ensures Valid() && order == old(order)
      ensures buttons == WalkedUpTo(t0, order[..i + 1], LoadWalk(p, deckId, script, bridgeFile))
      ensures queue == q0 + PageMessages(t0, order[..i + 1], p, "willAppear", deckId)
    {
      ghost var w := LoadWalk(p, deckId, script, bridgeFile);
      var s := order[i];
      assert order[..i + 1] == order[..i] + [s];
      assert s !in order[..i];
      WalkedStep(t0, order[..i], s, w);
      WalkedUpToAt(t0, order[..i], w, s);
      PageMessagesStep(t0, order[..i], s, p, "willAppear", deckId);
      var buttonInfo := buttons[s];
      if s.page == p && buttonInfo.md.Some? {
        var deckInfo := buttonInfo.md.value;
        if deckInfo.initData.Some? {
          AnnounceButton(s, script);
        }
      }
    }

    /** The body of the `_unload_md_buttons` loop for the `i`-th button of the table. */
    method UnloadStep(i: nat, p: int, ghost t0: Table, ghost q0: seq<Outbound>)
      requires Valid() && i < |order|
      requires buttons == WalkedUpTo(t0, order[..i], UnloadWalk(p))
      requires queue == q0 + PageMessages(t0, order[..i], p, "willDisappear", deckId)
      modifies this`buttons, this`order, this`queue
      ensures Valid() && order == old(order)
      ensures buttons == WalkedUpTo(t0, order[..i + 1], UnloadWalk(p))
      ensures queue == q0 + PageMessages(t0, order[..i + 1], p, "willDisappear", deckId)
    {
      ghost var w := UnloadWalk(p);
      var s := order[i];
      assert order[..i + 1] == order[..i] + [s];
      assert s !in order[..i];
      WalkedStep(t0, order[..i], s, w);
      WalkedUpToAt(t0, order[..i], w, s);
      PageMessagesStep(t0, order[..i], s, p, "willDisappear", deckId);
      var buttonInfo := buttons[s];
      if s.page == p && buttonInfo.md.Some? {
        var deckInfo := buttonInfo.md.value;
        if deckInfo.initData.Some? {
          RetireButton(s);
        }
      }
    }

    /** One visit of the `load_md_buttons` walk: a listed button is rewired and announced. */
    method AnnounceButton(s: Slot, script: string)
      requires Valid() && s in buttons && Listed(buttons[s])
      modifies this`buttons, this`order, this`queue
      ensures Valid() && order == old(order)
      ensures buttons == old(buttons)[s := Loaded(old(buttons[s]), s, deckId, script, bridgeFile)]
      ensures queue == old(queue) + [Appear(old(buttons[s]), s, "willAppear", deckId)]
    {
      ghost var before := buttons;
      var deckInfo := buttons[s].md.value;
      ghost var settled := buttons[s].(md := Some(WithSettings(deckInfo, deckInfo.initData.value.action, s)));
      var initData := CreateWillDisplayPayload(s, "willAppear");
      ResolveIdempotent(deckInfo, deckInfo.initData.value.action, s);
      var command := CreateCommandPayload(initData.value.action, "keyDown", s);
      UpdateTwice(before, s, settled, settled);
      ghost var loaded := settled.(command := PipeWriter(script, bridgeFile, command));
      SetCommand(s, PipeWriter(script, bridgeFile, command));
      UpdateTwice(before, s, settled, loaded);
      WriteMessage(initData.value);
    }

    /** One visit of the `_unload_md_buttons` walk: a listed button says goodbye and is reset. */
    method RetireButton(s: Slot)
      requires Valid() && s in buttons && Listed(buttons[s])
      modifies this`buttons, this`order, this`queue
      ensures Valid() && order == old(order)
      ensures buttons == old(buttons)[s := Unloaded(old(buttons[s]), s)]
      ensures queue == old(queue) + [Appear(old(buttons[s]), s, "willDisappear", deckId)]
    {
      var initData := CreateWillDisplayPayload(s, "willDisappear");
      ResetButton(s, "");
      WriteMessage(initData.value);
    }

    /** `_unload_md_buttons`: every listed button of the page sends `willDisappear` and is reset. */
    method UnloadMdButtons(p: int) returns (r: Outcome<Error>)
      requires Valid()
      modifies this`buttons, this`order, this`queue
      ensures Valid() && order == old(order)
      ensures deckId == "" ==> r == Pass && buttons == old(buttons) && queue == old(queue)
      ensures deckId != "" && !PageExists(old(buttons), p) ==>
        r == Fail(MissingPage(p)) && buttons == old(buttons) && queue == old(queue)
      ensures deckId != "" && PageExists(old(buttons), p) ==>
        && r == Pass
        && buttons == Walked(old(buttons), UnloadWalk(p))
        && queue == old(queue) + PageMessages(old(buttons), order, p, "willDisappear", deckId)
    {
      if deckId == "" {
        return Pass;
      }
      if !PageExists(buttons, p) {
        return Fail(MissingPage(p));
      }
      ghost var t0 := buttons;
      ghost var q0 := queue;
      ghost var w := UnloadWalk(p);
      var i := 0;
      while i < |order|
        invariant 0 <= i <= |order|
        invariant Valid() && order == old(order)
        invariant buttons == WalkedUpTo(t0, order[..i], w)
        invariant queue == q0 + PageMessages(t0, order[..i], p, "willDisappear", deckId)
      {
        UnloadStep(i, p, t0, q0);
        i := i + 1;
      }
      assert order[..i] == order;
      WalkedAll(t0, order, w);
      r := Pass;
    }

    /** `_on_page_changed`: the old page's buttons disappear, then the new page's appear. */
    method OnPageChanged(oldPage: int, newPage: int) returns (r: Outcome<Error>)
      requires Valid()
      modifies this`buttons, this`order, this`queue
      ensures Valid() && order == old(order)
      ensures !initialized ==> r == Pass && buttons == old(buttons) && queue == old(queue)
      ensures initialized && !PageExists(old(buttons), oldPage) ==>
        r == Fail(MissingPage(oldPage)) && buttons == old(buttons) && queue == old(queue)
      ensures initialized && PageExists(old(buttons), oldPage) && !PageExists(old(buttons), newPage) ==>
        && r == Fail(MissingPage(newPage))
        && buttons == Walked(old(buttons), UnloadWalk(oldPage))
        && queue == old(queue) + PageMessages(old(buttons), order, oldPage, "willDisappear", deckId)
      ensures initialized && PageExists(old(buttons), oldPage) && PageExists(old(buttons), newPage) ==>
        && r == Pass
        && buttons == Walked(Walked(old(buttons), UnloadWalk(oldPage)), LoadWalk(newPage, deckId, Paths.PipeWriterScript(home), bridgeFile))
        && queue == old(queue) + PageMessages(old(buttons), order, oldPage, "willDisappear", deckId)
                              + PageMessages(Walked(old(buttons), UnloadWalk(oldPage)), order, newPage, "willAppear", deckId)
    {
      if !initialized {
        return Pass;
      }
      ghost var t0 := buttons;
      r := UnloadMdButtons(oldPage);
      if r.Fail? {
        return;
      }
      assert PageExists(t0, newPage) == PageExists(buttons, newPage) by {
        assert buttons.Keys == t0.Keys;
      }
      r := LoadMdButtons(Some(newPage));
    }

    /** The deck's page setter as the bridge overrides it: switch page, then `_on_page_changed`. */
    method SetPage(newPage: int) returns (r: Outcome<Error>)
      requires Valid()
      modifies this`page, this`buttons, this`order, this`queue
      ensures Valid() && page == newPage && order == old(order)
      ensures !initialized ==> r == Pass && buttons == old(buttons) && queue == old(queue)
      ensures initialized && PageExists(old(buttons), old(page)) && PageExists(old(buttons), newPage) ==>
        && r == Pass
        && buttons == Walked(Walked(old(buttons), UnloadWalk(old(page))), LoadWalk(newPage, deckId, Paths.PipeWriterScript(home), bridgeFile))
        && queue == old(queue) + PageMessages(old(buttons), order, old(page), "willDisappear", deckId)
                              + PageMessages(Walked(old(buttons), UnloadWalk(old(page))), order, newPage, "willAppear", deckId)
      ensures initialized && !(PageExists(old(buttons), old(page)) && PageExists(old(buttons), newPage)) ==> r.Fail?
    {
      var originalPage := page;
      page := newPage;
      r := OnPageChanged(originalPage, newPage);
    }

    /**
     * `disconnect`: every button with a `material_deck` entry, on every page, shows the
     * placeholder with no text and no command; the bindings stay.
     */
    method Disconnect() returns (r: Outcome<Error>)
      requires Valid()
      modifies this`buttons, this`order
      ensures Valid() && order == old(order)
      ensures deckId == "" ==> r == Fail(NoDeck) && buttons == old(buttons)
      ensures deckId != "" ==> r == Pass && buttons == Walked(old(buttons), DisconnectWalk(Paths.PlaceholderImage(home)))
    {
      if deckId == "" {
        return Fail(NoDeck);
      }
      ghost var t0 := buttons;
      var placeholder := Paths.PlaceholderImage(home);
      var i := 0;
      while i < |order|
        invariant 0 <= i <= |order|
        invariant Valid() && order == old(order)
        invariant buttons == WalkedUpTo(t0, order[..i], DisconnectWalk(placeholder))
      {
        DisconnectStep(i, placeholder, t0);
        i := i + 1;
      }
      assert order[..i] == order;
      WalkedAll(t0, order, DisconnectWalk(placeholder));
      r := Pass;
    }

    /** The body of the `disconnect` loop for the `i`-th button of the table. */
    method DisconnectStep(i: nat, placeholder: string, ghost t0: Table)
      requires Valid() && i < |order|
      requires buttons == WalkedUpTo(t0, order[..i], DisconnectWalk(placeholder))
      modifies this`buttons, this`order
      ensures Valid() && order == old(order)
      ensures buttons == WalkedUpTo(t0, order[..i + 1], DisconnectWalk(placeholder))
    {
      ghost var w := DisconnectWalk(placeholder);
      var s := order[i];
      assert order[..i + 1] == order[..i] + [s];
      assert s !in order[..i];
      WalkedStep(t0, order[..i], s, w);
      WalkedUpToAt(t0, order[..i], w, s);
      if buttons[s].md.Some? {
        ResetButton(s, placeholder);
      }
    }
  }
}
