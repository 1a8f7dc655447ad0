/**
 * The deck's per-button state as the bridge sees it: the text, icon and command the
 * device-management layer shows, plus the optional `material_deck` entry holding a button's
 * Material Deck binding. Functions here say, value by value, what the bridge's operations do
 * to one button and which messages they produce; the class in bridge.dfy is proved against them.
 */
module Deck {
  import opened Wrappers
  import opened Protocol
  import opened Coordinates

  /** A physical button: a page of the deck and a button index on it. */
  datatype Slot = Slot(page: int, index: int)

  /** A button's command: a plain shell line, or the trampoline that relays a key-down payload. */
  datatype ButtonCommand =
    | Shell(line: string)
    | PipeWriter(script: string, pipe: string, message: Outbound)

  /** The stored `init_data`: the bound action and the `payload.settings` it starts from.
      (Its stored `event` is always overwritten when a payload is built, so it is not kept.) */
  datatype InitData = InitData(action: string, settings: Settings)

  /** The `material_deck` entry of a button; either key may be missing. */
  datatype MdInfo = MdInfo(initData: Option<InitData>, actionSettings: Option<Settings>)

  datatype ButtonState = ButtonState(text: string, icon: string, command: ButtonCommand, md: Option<MdInfo>)

  /** A button entry freshly created by a lookup: no text, icon or command, no binding. */
  const Blank: ButtonState := ButtonState("", "", Shell(""), None)

  /** An empty `material_deck` dictionary. */
  const NoMd: MdInfo := MdInfo(None, None)

  /** The `payload.settings` a new `init_data` starts with. */
  const DefaultDisplaySettings: Settings := map["displayName" := JBool(true), "displayIcon" := JBool(true)]

  /** The deck's button table: `state[deck]['buttons'][page][index]`, flattened. */
  type Table = map<Slot, ButtonState>

  /** A lookup through `_button_state`: a missing entry reads as a blank one. */
  function Get(t: Table, s: Slot): ButtonState {
    if s in t then t[s] else Blank
  }

  /** The button an inbound event's context names: `_to_page`, then `_to_button_index` on that page. */
  function ContextSlot(context: int): Slot {
    Slot(ToPage(context), ToButtonIndex(context, ToPage(context)))
  }

  /**
   * An event addressed to the context a button announced lands on that very button, and every
   * context is the announced context of the button it lands on.
   */
  lemma ContextSlotRoundTrip(s: Slot, context: int)
    ensures 0 <= s.index < PageSize && s.page >= 0 ==> ContextSlot(ToContext(s.index, s.page)) == s
    ensures ToContext(ContextSlot(context).index, ContextSlot(context).page) == context
  {
    if 0 <= s.index < PageSize && s.page >= 0 {
      PageRoundTrip(s.index, s.page);
    }
    ContextSplit(context);
  }

  /** Insertion order after a `setdefault` of `s`: a new entry goes last. */
  function TouchOrder(t: Table, order: seq<Slot>, s: Slot): seq<Slot> {
    if s in t then order else order + [s]
  }

  /** `order` lists every entry of the table once, in insertion order. */
  ghost predicate TableOk(t: Table, order: seq<Slot>) {
    && (forall i, j :: 0 <= i < j < |order| ==> order[i] != order[j])
    && (forall s :: s in t <==> s in order)
  }

  /** Page `page` has a dictionary in the table exactly when some entry lies on it. */
  predicate PageExists(t: Table, page: int) {
    exists s :: s in t && s.page == page
  }

  /** Writing a button twice keeps only the second write. */
  lemma UpdateTwice(t: Table, s: Slot, x: ButtonState, y: ButtonState)
    ensures t[s := x][s := y] == t[s := y]
  {
  }

  lemma TouchKeepsTableOk(t: Table, order: seq<Slot>, s: Slot, v: ButtonState)
    requires TableOk(t, order)
    ensures TableOk(t[s := v], TouchOrder(t, order, s))
  {
  }

  function MdOf(b: ButtonState): MdInfo {
    b.md.GetOr(NoMd)
  }

  /** `init_data.action` of a button, `''` when it has none. */
  function ActionOf(b: ButtonState): string {
    match MdOf(b).initData
    case Some(init) => init.action
    case None => ""
  }

  /** Bound with an `init_data`, the condition load and unload test. */
  predicate Listed(b: ButtonState) {
    b.md.Some? && b.md.value.initData.Some?
  }

  /** Settings synthesised for an action on a button with no settings yet. */
  function Defaults(action: string, s: Slot): Settings {
    if action == "soundboard" then
      map["soundNr" := JInt(ToContext(s.index + 1, s.page))]
    else if action == "macro" then
      map["macroMode" := JStr("macroBoard"), "macroNumber" := JInt(ToContext(s.index + 1, s.page))]
    else
      map[]
  }

  /** The settings `_get_settings_for_action` returns for a button's entry. */
  function Resolve(md: MdInfo, action: string, s: Slot): Settings {
    var stored := md.actionSettings.GetOr(map[]);
    if stored == map[] then Defaults(action, s) else stored
  }

  /** The entry `_get_settings_for_action` leaves behind: the returned settings stored. */
  function WithSettings(md: MdInfo, action: string, s: Slot): MdInfo {
    md.(actionSettings := Some(Resolve(md, action, s)))
  }

  function GridOf(buttonIndex: int): Grid {
    Grid(Column(buttonIndex), Row(buttonIndex))
  }

  /** `_create_will_display_payload`, given the settings resolved for the action. */
  function DisplayMessage(init: InitData, actionSettings: Settings, s: Slot, event: string, device: string): Outbound {
    WillDisplay(event, init.action, ToContext(s.index, s.page), Size(Columns, Rows), GridOf(s.index),
                init.settings + actionSettings, s.page, device)
  }

  /** `_create_command_payload`, given the settings resolved for the action. */
  function CommandMessage(action: string, event: string, s: Slot, settings: Settings, device: string): Outbound {
    CommandEvent(action, event, ToContext(s.index, s.page), GridOf(s.index), settings, s.page, device)
  }

  /** `_reset_button`. */
  function Reset(b: ButtonState, icon: string): ButtonState {
    b.(text := "", command := Shell(""), icon := icon)
  }

  /** The display message a listed button produces for `event`. */
  function Appear(b: ButtonState, s: Slot, event: string, device: string): Outbound
    requires Listed(b)
  {
    var md := b.md.value;
    DisplayMessage(md.initData.value, Resolve(md, md.initData.value.action, s), s, event, device)
  }

  /** A listed button after `load_md_buttons` has visited it: settings stored, trampoline wired. */
  function Loaded(b: ButtonState, s: Slot, device: string, script: string, pipe: string): ButtonState
    requires Listed(b)
  {
    var md := b.md.value;
    var action := md.initData.value.action;
    b.(md := Some(WithSettings(md, action, s)),
       command := PipeWriter(script, pipe, CommandMessage(action, "keyDown", s, Resolve(md, action, s), device)))
  }

  /** A listed button after `_unload_md_buttons` has visited it: settings stored, button reset. */
  function Unloaded(b: ButtonState, s: Slot): ButtonState
    requires Listed(b)
  {
    var md := b.md.value;
    Reset(b.(md := Some(WithSettings(md, md.initData.value.action, s))), "")
  }

  /** A button after `md_action_changed` with a non-empty action. */
  function Bound(b: ButtonState, s: Slot, action: string, device: string, script: string, pipe: string): ButtonState {
    var md := MdOf(b);
    var init := md.initData.GetOr(InitData(action, DefaultDisplaySettings)).(action := action);
    var md1 := md.(initData := Some(init));
    b.(md := Some(WithSettings(md1, action, s)),
       command := PipeWriter(script, pipe, CommandMessage(action, "keyDown", s, Resolve(md1, action, s), device)))
  }

  /** A button after `md_action_changed` with the empty action removed its binding. */
  function Unbound(b: ButtonState): ButtonState {
    Reset(b, "").(md := None)
  }

  /** The `willDisappear` message sent when the binding of `b` is removed. */
  function RemovalMessage(b: ButtonState, s: Slot, device: string): Outbound {
    Removal(ActionOf(b), GridOf(s.index), ToContext(s.index, s.page), device)
  }

  /** The display messages a walk over `slots` sends for the listed buttons of `page`, in order. */
  function PageMessages(t: Table, slots: seq<Slot>, page: int, event: string, device: string): seq<Outbound>
  {
    if slots == [] then []
    else
      var s := slots[|slots| - 1];
      PageMessages(t, slots[..|slots| - 1], page, event, device)
        + (if s.page == page && Listed(Get(t, s)) then [Appear(Get(t, s), s, event, device)] else [])
  }

  /** The three walks over the table: `load_md_buttons`, `_unload_md_buttons` and `disconnect`. */
  datatype Walk =
    | LoadWalk(page: int, device: string, script: string, pipe: string)
    | UnloadWalk(page: int)
    | DisconnectWalk(icon: string)

  /** Whether the walk changes button `s`: a listed button of the page, or any button with a
      `material_deck` entry for a disconnect. */
  predicate Visits(w: Walk, s: Slot, b: ButtonState) {
    match w
    case LoadWalk(page, _, _, _) => s.page == page && Listed(b)
    case UnloadWalk(page) => s.page == page && Listed(b)
    case DisconnectWalk(_) => b.md.Some?
  }

  /** What the walk makes of a button it changes. */
  function Visit(w: Walk, s: Slot, b: ButtonState): ButtonState
    requires Visits(w, s, b)
  {
    match w
    case LoadWalk(_, device, script, pipe) => Loaded(b, s, device, script, pipe)
    case UnloadWalk(_) => Unloaded(b, s)
    case DisconnectWalk(icon) => Reset(b, icon)
  }

  /** The table after a whole walk. */
  function Walked(t: Table, w: Walk): Table {
    map s | s in t :: if Visits(w, s, t[s]) then Visit(w, s, t[s]) else t[s]
  }

  /** The table after the walk has visited the slots in `done`, one at a time. */
  function WalkedUpTo(t: Table, done: seq<Slot>, w: Walk): Table {
    if done == [] then t
    else
      var s := done[|done| - 1];
      var u := WalkedUpTo(t, done[..|done| - 1], w);
      if s in t && Visits(w, s, t[s]) then u[s := Visit(w, s, t[s])] else u
  }

  /** Part way through, the visited buttons are changed and the others are as they were. */
  lemma {:induction false} WalkedUpToAt(t: Table, done: seq<Slot>, w: Walk, x: Slot)
    ensures x in WalkedUpTo(t, done, w) <==> x in t
    ensures x in t ==>
      WalkedUpTo(t, done, w)[x] == if x in done && Visits(w, x, t[x]) then Visit(w, x, t[x]) else t[x]
  {
    if done != [] {
      var init := done[..|done| - 1];
      assert done == init + [done[|done| - 1]];
      WalkedUpToAt(t, init, w, x);
    }
  }

  /** A walk over every entry of the table gives the whole-table result. */
  lemma WalkedAll(t: Table, order: seq<Slot>, w: Walk)
    requires forall s :: s in t ==> s in order
    ensures WalkedUpTo(t, order, w) == Walked(t, w)
  {
    forall x
      ensures x in WalkedUpTo(t, order, w) <==> x in Walked(t, w)
      ensures x in t ==> WalkedUpTo(t, order, w)[x] == Walked(t, w)[x]
    {
      WalkedUpToAt(t, order, w, x);
    }
  }

  /** One more visited slot: the walk so far, plus that slot's change. */
  lemma WalkedStep(t: Table, done: seq<Slot>, s: Slot, w: Walk)
    ensures WalkedUpTo(t, done + [s], w)
         == if s in t && Visits(w, s, t[s]) then WalkedUpTo(t, done, w)[s := Visit(w, s, t[s])] else WalkedUpTo(t, done, w)
  {
    assert (done + [s])[..|done|] == done;
  }

  /** One more visited slot adds its message, if any, at the end. */
  lemma PageMessagesStep(t: Table, done: seq<Slot>, s: Slot, page: int, event: string, device: string)
    ensures PageMessages(t, done + [s], page, event, device)
         == PageMessages(t, done, page, event, device)
            + (if s.page == page && Listed(Get(t, s)) then [Appear(Get(t, s), s, event, device)] else [])
  {
    assert (done + [s])[..|done|] == done;
  }

  // ---------------------------------------------------------------------------
  // Action settings

  /** Stored settings that are non-empty are returned as they are. */
  lemma ResolveKeepsStored(md: MdInfo, action: string, s: Slot)
    requires md.actionSettings.Some? && md.actionSettings.value != map[]
    ensures Resolve(md, action, s) == md.actionSettings.value
    ensures WithSettings(md, action, s) == md
  {
  }

  /**
   * Missing or empty settings get the action's defaults: a soundboard's sound number and a
   * macro's macro-board number are the 1-based context of the button; other actions get none.
   * An explicitly stored `{}` is refilled the same way.
   */
  lemma ResolveDefaults(md: MdInfo, action: string, s: Slot)
    requires md.actionSettings.GetOr(map[]) == map[]
    ensures action == "soundboard" ==>
      Resolve(md, action, s).Keys == {"soundNr"} && Resolve(md, action, s)["soundNr"] == JInt(ToContext(s.index, s.page) + 1)
    ensures action == "macro" ==>
      && Resolve(md, action, s).Keys == {"macroMode", "macroNumber"}
      && Resolve(md, action, s)["macroMode"] == JStr("macroBoard")
      && Resolve(md, action, s)["macroNumber"] == JInt(ToContext(s.index, s.page) + 1)
    ensures action != "soundboard" && action != "macro" ==> Resolve(md, action, s) == map[]
  {
  }

  /** Resolving twice is resolving once: the defaults written back are what the second call returns. */
  lemma ResolveIdempotent(md: MdInfo, action: string, s: Slot)
    ensures Resolve(WithSettings(md, action, s), action, s) == Resolve(md, action, s)
    ensures WithSettings(WithSettings(md, action, s), action, s) == WithSettings(md, action, s)
  {
  }

  // ---------------------------------------------------------------------------
  // Binding lifecycle

  /**
   * Binding keeps an existing `init_data` (only its action changes) and existing non-empty
   * settings; the button is wired to send a key-down for the new action.
   */
  lemma BindKeepsExisting(b: ButtonState, s: Slot, action: string, device: string, script: string, pipe: string)
    ensures var r := Bound(b, s, action, device, script, pipe);
      && r.md.Some? && r.md.value.initData.Some?
      && ActionOf(r) == action
      && r.text == b.text && r.icon == b.icon
      && (MdOf(b).initData.Some? ==> r.md.value.initData.value == MdOf(b).initData.value.(action := action))
      && (MdOf(b).actionSettings.Some? && MdOf(b).actionSettings.value != map[] ==>
            r.md.value.actionSettings == MdOf(b).actionSettings)
      && r.command.PipeWriter? && r.command.message.action == action && r.command.message.event == "keyDown"
  {
  }

  /** Binding an unbound button to the soundboard seeds the display flags and the sound number. */
  lemma BindFreshSoundboard(b: ButtonState, s: Slot, device: string, script: string, pipe: string)
    requires b.md.None?
    ensures var r := Bound(b, s, "soundboard", device, script, pipe);
      && r.md == Some(MdInfo(Some(InitData("soundboard", DefaultDisplaySettings)),
                             Some(map["soundNr" := JInt(ToContext(s.index + 1, s.page))])))
  {
  }

  /** Choosing the same action again leaves the button as it was. */
  lemma BindIdempotent(b: ButtonState, s: Slot, action: string, device: string, script: string, pipe: string)
    ensures Bound(Bound(b, s, action, device, script, pipe), s, action, device, script, pipe)
         == Bound(b, s, action, device, script, pipe)
  {
    var md := MdOf(b);
    var init := md.initData.GetOr(InitData(action, DefaultDisplaySettings)).(action := action);
    var md1 := md.(initData := Some(init));
    ResolveIdempotent(md1, action, s);
  }

  /** Removing a binding right after making it reports the bound action and leaves no binding. */
  lemma UnbindAfterBind(b: ButtonState, s: Slot, action: string, device: string, script: string, pipe: string)
    ensures var r := Bound(b, s, action, device, script, pipe);
      && RemovalMessage(r, s, device).action == action
      && Unbound(r).md.None? && Unbound(r).text == "" && Unbound(r).icon == "" && Unbound(r).command == Shell("")
  {
  }

  /** The `willAppear` a freshly bound button announces carries its context, grid position and settings. */
  lemma BoundAnnounces(b: ButtonState, s: Slot, action: string, device: string, script: string, pipe: string)
    ensures var r := Bound(b, s, action, device, script, pipe);
      && Listed(r)
      && Appear(r, s, "willAppear", device).context == ToContext(s.index, s.page)
      && Appear(r, s, "willAppear", device).coordinates == Grid(Column(s.index), Row(s.index))
      && Appear(r, s, "willAppear", device).action == action
      && Appear(r, s, "willAppear", device).deviceIteration == s.page
      && Appear(r, s, "willAppear", device).settings
           == MdOf(r).initData.value.settings + Resolve(MdOf(b), action, s)
  {
  }

  /** Button 3 of page 0 bound to a macro announces context 3 at (3, 0) with macro board 4. */
  lemma MacroScenario(device: string, script: string, pipe: string)
    ensures var r := Bound(Blank, Slot(0, 3), "macro", device, script, pipe);
      && Appear(r, Slot(0, 3), "willAppear", device)
         == WillDisplay("willAppear", "macro", 3, Size(8, 4), Grid(3, 0),
                        map["displayName" := JBool(true), "displayIcon" := JBool(true),
                            "macroMode" := JStr("macroBoard"), "macroNumber" := JInt(4)],
                        0, device)
  {
  }

  // ---------------------------------------------------------------------------
  // Page walks

  /**
   * A page walk sends a display message for each listed button of the page among the walked
   * slots, and nothing else.
   */
  lemma {:induction false} PageMessagesExact(t: Table, slots: seq<Slot>, page: int, event: string, device: string, m: Outbound)
    ensures m in PageMessages(t, slots, page, event, device) <==>
      exists s :: s in slots && s.page == page && Listed(Get(t, s)) && m == Appear(Get(t, s), s, event, device)
  {
    if slots != [] {
      var last := slots[|slots| - 1];
      var init := slots[..|slots| - 1];
      assert slots == init + [last];
      PageMessagesExact(t, init, page, event, device, m);
      if m in PageMessages(t, slots, page, event, device) && m !in PageMessages(t, init, page, event, device) {
        assert last.page == page && Listed(Get(t, last)) && m == Appear(Get(t, last), last, event, device);
      }
    }
  }

  /** Every message of a page walk is a display message for that page, event and device. */
  lemma {:induction false} PageMessagesShape(t: Table, slots: seq<Slot>, page: int, event: string, device: string)
    ensures forall m :: m in PageMessages(t, slots, page, event, device) ==>
      m.WillDisplay? && m.event == event && m.deviceIteration == page && m.device == device
      && m.size == Size(Columns, Rows) && m.coordinates == GridOf(ToButtonIndex(m.context, page))
  {
    if slots != [] {
      PageMessagesShape(t, slots[..|slots| - 1], page, event, device);
    }
  }

  /** Two walks over the same slots send the same messages when the listed buttons announce alike. */
  lemma {:induction false} PageMessagesAgree(t: Table, u: Table, slots: seq<Slot>, page: int, event: string, device: string)
    requires forall s :: s in slots && s.page == page ==> Listed(Get(t, s)) == Listed(Get(u, s))
    requires forall s :: s in slots && s.page == page && Listed(Get(t, s)) ==>
      Appear(Get(t, s), s, event, device) == Appear(Get(u, s), s, event, device)
    ensures PageMessages(t, slots, page, event, device) == PageMessages(u, slots, page, event, device)
  {
    if slots != [] {
      PageMessagesAgree(t, u, slots[..|slots| - 1], page, event, device);
    }
  }

  /** Loading a page again announces the same buttons with the same payloads. */
  lemma ReloadAnnouncesSame(t: Table, slots: seq<Slot>, page: int, device: string, script: string, pipe: string)
    ensures PageMessages(Walked(t, LoadWalk(page, device, script, pipe)), slots, page, "willAppear", device)
         == PageMessages(t, slots, page, "willAppear", device)
  {
    var u := Walked(t, LoadWalk(page, device, script, pipe));
    forall s | s in slots && s.page == page && Listed(Get(t, s))
      ensures Appear(Get(t, s), s, "willAppear", device) == Appear(Get(u, s), s, "willAppear", device)
    {
      var md := Get(t, s).md.value;
      ResolveIdempotent(md, md.initData.value.action, s);
    }
    PageMessagesAgree(t, u, slots, page, "willAppear", device);
  }

  /** Unloading a page and loading it again announces the same buttons with the same payloads. */
  lemma ReturnAnnouncesSame(t: Table, slots: seq<Slot>, page: int, device: string)
    ensures PageMessages(Walked(t, UnloadWalk(page)), slots, page, "willAppear", device)
         == PageMessages(t, slots, page, "willAppear", device)
  {
    var u := Walked(t, UnloadWalk(page));
    forall s | s in slots && s.page == page && Listed(Get(t, s))
      ensures Appear(Get(t, s), s, "willAppear", device) == Appear(Get(u, s), s, "willAppear", device)
    {
      var md := Get(t, s).md.value;
      ResolveIdempotent(md, md.initData.value.action, s);
    }
    PageMessagesAgree(t, u, slots, page, "willAppear", device);
  }

  /** A page walk over page `q` leaves every button of another page as it was. */
  lemma WalkOtherPage(t: Table, q: int, device: string, script: string, pipe: string, s: Slot)
    requires s.page != q
    ensures Get(Walked(t, LoadWalk(q, device, script, pipe)), s) == Get(t, s)
    ensures Get(Walked(t, UnloadWalk(q)), s) == Get(t, s)
  {
  }

  /**
   * Switching from page `p` to another page `q` and back announces page `p`'s buttons with the
   * same payloads as before: the first switch unloads `p` and loads `q`, the second unloads `q`
   * and then loads `p`, whose announcements are computed on the table at that point.
   */
  lemma {:induction false} AwayAndBackAnnouncesSame(t: Table, slots: seq<Slot>, p: int, q: int,
                                                   device: string, script: string, pipe: string)
    requires p != q
    ensures var away := Walked(Walked(t, UnloadWalk(p)), LoadWalk(q, device, script, pipe));
            var back := Walked(away, UnloadWalk(q));
            PageMessages(back, slots, p, "willAppear", device) == PageMessages(t, slots, p, "willAppear", device)
  {
    var left := Walked(t, UnloadWalk(p));
    var away := Walked(left, LoadWalk(q, device, script, pipe));
    var back := Walked(away, UnloadWalk(q));
    forall s: Slot | s.page == p
      ensures Get(back, s) == Get(left, s)
    {
      WalkOtherPage(left, q, device, script, pipe, s);
      WalkOtherPage(away, q, device, script, pipe, s);
    }
    PageMessagesAgree(back, left, slots, p, "willAppear", device);
    ReturnAnnouncesSame(t, slots, p, device);
  }

  /** A disconnect resets exactly the buttons with a `material_deck` entry and keeps every binding. */
  lemma DisconnectKeepsBindings(t: Table, icon: string, s: Slot)
    requires s in t
    ensures s in Walked(t, DisconnectWalk(icon))
    ensures Walked(t, DisconnectWalk(icon))[s].md == t[s].md
    ensures t[s].md.Some? ==> Walked(t, DisconnectWalk(icon))[s] == t[s].(text := "", command := Shell(""), icon := icon)
    ensures t[s].md.None? ==> Walked(t, DisconnectWalk(icon))[s] == t[s]
  {
  }
}
