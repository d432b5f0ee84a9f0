/** `class Extension` of the background page: the unread counts, the
    notification button indexes and the per-notification clearing timers,
    updated in place. The browser's badge, its timers and the effects sent
    to it are fields too, so that every method can say what it leaves
    behind; each method is proved to perform the matching step of the
    `Engine` module. */
module Ext {
  import opened Decimal
  import opened JsValues
  import opened JsStrings
  import opened Engine
  import opened EngineProps

  class Extension {
    const notifId: string
    const isFirefox: bool

    var unread: Unread
    var autoTheme: string
    var buttonIndexes: map<string, ButtonIndexes>
    var clearNotifTimeout: map<string, nat>
    var updateInterval: Option<nat>

    /** The browser's badge text and live timers, and the next timer handle. */
    var badgeText: string
    var timers: map<nat, Timer>
    var nextHandle: nat
    ghost var effects: seq<Effect>

    function Cfg(): Config {
      Config(notifId, isFirefox)
    }

    ghost function Snapshot(): ExtState
      reads this
    {
      ExtState(unread, autoTheme, buttonIndexes, clearNotifTimeout, updateInterval,
               badgeText, timers, nextHandle, effects)
    }

    ghost predicate Valid()
      reads this
    {
      Inv(Snapshot())
    }

    /** `new Extension()`, in a browser whose badge shows `initialBadge`. */
    constructor (notifId: string, isFirefox: bool, initialBadge: string)
      ensures this.notifId == notifId && this.isFirefox == isFirefox
      ensures Snapshot() == Initial(Cfg(), initialBadge)
      ensures Valid()
    {
      this.notifId := notifId;
      this.isFirefox := isFirefox;
      unread := Unread(Int(0), Int(0));
      autoTheme := DefaultTheme;
      buttonIndexes := map[notifId := ButtonIndexes(-1, -1)];
      clearNotifTimeout := map[];
      updateInterval := None;
      badgeText := initialBadge;
      timers := map[];
      nextHandle := 1;
      effects := [];
      new;
      InitialInv(Cfg(), initialBadge);
    }

    // -------------------------------------------------------------------
    // The host's timers
    // -------------------------------------------------------------------

    /** `setTimeout` / `setInterval`: a fresh handle for a live timer. */
    method StartTimer(t: Timer) returns (h: nat)
      modifies this
      ensures h == old(nextHandle) && nextHandle == h + 1
      ensures timers == old(timers)[h := t]
      ensures unread == old(unread) && autoTheme == old(autoTheme) && buttonIndexes == old(buttonIndexes)
      ensures clearNotifTimeout == old(clearNotifTimeout) && updateInterval == old(updateInterval)
      ensures badgeText == old(badgeText) && effects == old(effects)
    {
      h := nextHandle;
      timers := timers[h := t];
      nextHandle := nextHandle + 1;
    }

    /** `clearTimeout` / `clearInterval`. */
    method StopTimer(h: nat)
      modifies this
      ensures timers == old(timers) - {h}
      ensures unread == old(unread) && autoTheme == old(autoTheme) && buttonIndexes == old(buttonIndexes)
      ensures clearNotifTimeout == old(clearNotifTimeout) && updateInterval == old(updateInterval)
      ensures badgeText == old(badgeText) && effects == old(effects) && nextHandle == old(nextHandle)
    {
      timers := timers - {h};
    }

    // -------------------------------------------------------------------
    // Notification timers
    // -------------------------------------------------------------------

    method SetNotifTimeout(prefs: map<string, JsValue>, id: string)
      modifies this
      ensures Snapshot() == SetNotifTimeoutStep(old(Snapshot()), prefs, id)
    {
      var h := StartTimer(ClearAfter(id, Prop(prefs, NotifTimeoutName)));
      clearNotifTimeout := clearNotifTimeout[id := h];
    }

    method ClearNotifTimeout(id: string)
      modifies this
      ensures Snapshot() == ClearNotifTimeoutStep(old(Snapshot()), id)
    {
      if id in clearNotifTimeout {
        StopTimer(clearNotifTimeout[id]);
        clearNotifTimeout := clearNotifTimeout - {id};
      }
    }

    method ClearNotif(id: string)
      modifies this
      ensures Snapshot() == ClearNotifStep(old(Snapshot()), id)
      ensures old(Valid()) ==> Valid()
    {
      ghost var s0 := Snapshot();
      effects := effects + [Effect.ClearNotif(id)];
      clearNotifTimeout := clearNotifTimeout - {id};
      if Inv(s0) {
        InvClearNotif(s0, id);
      }
    }

    /** The host runs the timer `h`. */
    method FireTimer(h: nat)
      requires Valid() && h in timers
      modifies this
      ensures Snapshot() == FireTimerStep(old(Snapshot()), h)
      ensures Valid()
    {
      ghost var s0 := Snapshot();
      InvFireTimer(s0, h);
      match timers[h]
      case ClearAfter(id, _) =>
        StopTimer(h);
        ClearNotif(id);
      case Poll(_) =>
    }

    // -------------------------------------------------------------------
    // Building and showing the notification
    // -------------------------------------------------------------------

    method BuildNotifParams(prefs: map<string, JsValue>, u: Unread, id: string) returns (params: NotifParams)
      modifies this
      ensures params == ParamsFor(prefs, u, isFirefox)
      ensures Snapshot() == BuildParamsStep(old(Snapshot()), u, id)
    {
      var buttons: seq<Button> := [];
      var hasNotifs := Positive(u.notifs);
      var displayIcons := Truthy(Prop(prefs, NotifIconsName));

      var ix := ButtonIndexes(-1, -1);
      if hasNotifs {
        buttons := [NotifsButton(prefs, u.notifs.i, isFirefox)];
        ix := ix.(notifs := 0);
      }
      if Positive(u.messages) {
        buttons := buttons + [MessagesButton(prefs, u.messages.i, isFirefox)];
        ix := ix.(messages := if hasNotifs then 1 else 0);
      }
      buttonIndexes := buttonIndexes[id := ix];
      assert buttons == Buttons(prefs, u, isFirefox);
      assert ix == Indexes(u);
      var persist := Prop(prefs, NotifTimeoutName) == Number(0);

      params := BaseParams;
      if !isFirefox {
        params := params.(buttons := Some(buttons), requireInteraction := Some(persist), silent := Some(true));
      } else {
        var message := AppendButtonLines(params.message + ":\n", buttons, displayIcons);
        params := params.(message := message);
      }
    }

    /** The lines Firefox shows in place of buttons, one per button, added to
        the end of `header`. */
    static method AppendButtonLines(header: string, buttons: seq<Button>, displayIcons: bool) returns (message: string)
      ensures message == header + ButtonLines(buttons, displayIcons)
    {
      message := header;
      for i := 0 to |buttons|
        invariant message == header + ButtonLines(buttons[..i], displayIcons)
      {
        var line := ButtonLine(buttons[i], displayIcons);
        AppendAssoc(header, ButtonLines(buttons[..i], displayIcons), line);
        message := message + line;
        ButtonLinesNext(buttons, i, displayIcons);
      }
      assert buttons[..|buttons|] == buttons;
    }

    method CreateNotif(prefs: map<string, JsValue>, params: NotifParams, id: string)
      modifies this
      ensures Snapshot() == CreateNotifStep(old(Snapshot()), prefs, params, id)
    {
      effects := effects + [ShowNotif(id, params)];
      if params.requireInteraction != Some(true) {
        SetNotifTimeout(prefs, id);
      }
    }

    method PlayNotifSound()
      modifies this
      ensures Snapshot() == old(Snapshot()).(effects := old(effects) + [PlaySound])
    {
      effects := effects + [PlaySound];
    }

    method NotifyUser(prefs: map<string, JsValue>, u: Unread, id: string)
      requires Valid()
      modifies this
      ensures Snapshot() == NotifyStep(old(Snapshot()), prefs, u, id, isFirefox)
      ensures Valid()
    {
      ghost var s0 := Snapshot();
      if Truthy(Prop(prefs, NotifSoundName)) {
        PlayNotifSound();
      }
      if Truthy(Prop(prefs, NotifEnabledName)) {
        ClearNotifTimeout(id);
        var params := BuildNotifParams(prefs, u, id);
        CreateNotif(prefs, params, id);
      }
      InvNotify(s0, prefs, u, id, isFirefox);
    }

    // -------------------------------------------------------------------
    // Counts and badge
    // -------------------------------------------------------------------

    method SetBadgeText(prefs: map<string, JsValue>)
      requires Valid()
      modifies this
      ensures Snapshot() == SetBadgeTextStep(old(Snapshot()), prefs, Cfg())
      ensures Valid()
    {
      ghost var s0 := Snapshot();
      var value := Total(unread);
      var newText := NewBadgeText(value);
      var currentText := badgeText;
      if currentText == newText {
        return;
      }
      badgeText := newText;
      effects := effects + [Effect.SetBadgeText(newText)];
      InvDisplay(s0, newText, s0.effects + [Effect.SetBadgeText(newText)]);
      assert Snapshot() == s0.(badgeText := newText, effects := s0.effects + [Effect.SetBadgeText(newText)]);
      if value == Int(0) || (!IsNaNString(currentText) && StrLess(newText, currentText)) {
        return;
      }
      NotifyUser(prefs, unread, notifId);
    }

    method SetNotifs(prefs: map<string, JsValue>, count: JsValue)
      requires Valid()
      modifies this
      ensures Snapshot() == SetBadgeTextStep(old(Snapshot()).(unread := old(unread).(notifs := CountOf(count))), prefs, Cfg())
      ensures Valid()
    {
      ghost var s0 := Snapshot();
      var c := CountOf(count);
      unread := unread.(notifs := c);
      InvUnread(s0, s0.unread.(notifs := c));
      assert Snapshot() == s0.(unread := s0.unread.(notifs := c));
      SetBadgeText(prefs);
    }

    method SetMessages(prefs: map<string, JsValue>, count: JsValue)
      requires Valid()
      modifies this
      ensures Snapshot() == SetBadgeTextStep(old(Snapshot()).(unread := old(unread).(messages := CountOf(count))), prefs, Cfg())
      ensures Valid()
    {
      ghost var s0 := Snapshot();
      var c := CountOf(count);
      unread := unread.(messages := c);
      InvUnread(s0, s0.unread.(messages := c));
      assert Snapshot() == s0.(unread := s0.unread.(messages := c));
      SetBadgeText(prefs);
    }

    method SetBadgeSignedOut()
      requires Valid()
      modifies this
      ensures Snapshot() == BadgeSignedOutStep(old(Snapshot()))
      ensures Valid()
    {
      effects := effects + [SetBadgeBackground(Str(SignedOutColor))];
      badgeText := SignedOutText;
      effects := effects + [Effect.SetBadgeText(SignedOutText)];
    }

    method SetBadgeSignedIn(prefs: map<string, JsValue>)
      requires Valid()
      modifies this
      ensures Snapshot() == BadgeSignedInStep(old(Snapshot()), prefs)
      ensures Valid()
    {
      var color := Prop(prefs, BadgeColorName);
      if Truthy(color) {
        effects := effects + [SetBadgeBackground(color)];
      }
    }

    method SetBadgeColor(prefs: map<string, JsValue>)
      requires Valid()
      modifies this
      ensures Snapshot() == SetBadgeColorStep(old(Snapshot()), prefs)
      ensures Valid()
    {
      if badgeText == SignedOutText {
        return;
      }
      SetBadgeSignedIn(prefs);
    }

    method RestartUpdateInterval(prefs: map<string, JsValue>)
      requires Valid()
      modifies this
      ensures Snapshot() == RestartUpdateIntervalStep(old(Snapshot()), prefs)
      ensures Valid()
    {
      ghost var s0 := Snapshot();
      if updateInterval.Some? {
        StopTimer(updateInterval.value);
      }
      var h := StartTimer(Poll(Prop(prefs, UpdateIntervalName)));
      updateInterval := Some(h);
      InvRestartUpdateInterval(s0, prefs);
    }

    // -------------------------------------------------------------------
    // Theme
    // -------------------------------------------------------------------

    /** `setAutoTheme(attr)`; `ok` is false when `attr` is absent and the call throws. */
    method SetAutoTheme(attr: Option<string>) returns (ok: bool)
      requires Valid()
      modifies this
      ensures ok <==> attr.Some?
      ensures Snapshot() == SetAutoThemeStep(old(Snapshot()), attr)
      ensures Valid()
    {
      if attr.None? {
        return false;
      }
      autoTheme := BeforeDash(attr.value);
      return true;
    }

    /** `getTheme(prefs)`: the theme setting, or the page's own theme when the
        setting is `auto`; an error when that is unknown. */
    function GetTheme(prefs: map<string, JsValue>): (r: Result<JsValue>)
      reads this
      ensures r.Err? <==> Prop(prefs, ThemeName) == Str("auto") && autoTheme == ""
      ensures r.Ok? && Prop(prefs, ThemeName) == Str("auto") ==> r.value == Str(autoTheme)
      ensures r.Ok? && Prop(prefs, ThemeName) != Str("auto") ==> r.value == Prop(prefs, ThemeName)
    {
      Theme(prefs, autoTheme)
    }
  }
}
