/** The notification engine of the background page as pure functions: the
    state an `Extension` object holds together with the browser state it
    drives (badge text, scheduled timers, shown notifications), and one
    step function per operation. The `Extension` class implements each step
    in place; the lemmas here state what the steps mean. */
module Engine {
  import opened Decimal
  import opened JsValues
  import opened JsStrings
  import opened Format

  const NotifsPath: string := "/notifications"
  const MessagesPath: string := "/conversations"
  const SignedOutText: string := "?"
  const SignedOutColor: string := "#222"
  const DefaultTheme: string := "default"

  /** `this._unread`: the counts as `parseInt` produced them, NaN included. */
  datatype Unread = Unread(notifs: Num, messages: Num)

  /** `this._buttonIndexes[id]`: the button index of each page, -1 when the
      notification has no button for it. */
  datatype ButtonIndexes = ButtonIndexes(notifs: int, messages: int)

  /** A notification button; `iconUrl` is undefined when icons are switched off. */
  datatype Button = Button(title: string, iconUrl: JsValue)

  /** The options given to `notifications.create`. The three optional
      properties are only set off Firefox. */
  datatype NotifParams = NotifParams(
    kind: string, iconUrl: string, title: string, message: string,
    buttons: Option<seq<Button>>, requireInteraction: Option<bool>, silent: Option<bool>)

  /** A timer of the host: a one-shot that clears a notification
      (`setNotifTimeout`), or the site polling interval (`restartUpdateInterval`).
      The delay is kept as the setting it was computed from. */
  datatype Timer = ClearAfter(id: string, seconds: JsValue) | Poll(seconds: JsValue)

  /** What the engine asks of the browser, in order. */
  datatype Effect =
    | PlaySound
    | SetBadgeText(text: string)
    | SetBadgeBackground(color: JsValue)
    | ShowNotif(id: string, params: NotifParams)
    | ClearNotif(id: string)
    | OpenTab(url: string)

  /** The platform and the id of the extension's own notification. */
  datatype Config = Config(notifId: string, isFirefox: bool)

  /** The names of the settings, as the options object spells them. */
  const BadgeColorName: string := "badgeColor"
  const PreferredDomainName: string := "preferredDomain"
  const ThemeName: string := "theme"
  const UpdateIntervalName: string := "updateInterval"
  const NotifEnabledName: string := "notifEnabled"
  const NotifSoundName: string := "notifSound"
  const NotifIconsName: string := "notifIcons"
  const BellIconStyleName: string := "bellIconStyle"
  const EnvelopeIconStyleName: string := "envelopeIconStyle"
  const NotifTimeoutName: string := "notifTimeout"

  /** The fields of an `Extension` (`_unread`, `_meta.autoTheme`,
      `_buttonIndexes`, `_clearNotifTimeout`, `_updateInterval`) with the
      browser state it reads and writes: the badge text, the live timers by
      handle, the next handle, and the effects issued so far. */
  datatype ExtState = ExtState(
    unread: Unread,
    autoTheme: string,
    buttonIndexes: map<string, ButtonIndexes>,
    clearSlots: map<string, nat>,
    pollTimer: Option<nat>,
    badgeText: string,
    timers: map<nat, Timer>,
    nextHandle: nat,
    effects: seq<Effect>)

  /** The state after `new Extension()`, with the browser's initial badge text. */
  function Initial(cfg: Config, badgeText: string): ExtState {
    ExtState(Unread(Int(0), Int(0)), DefaultTheme,
             map[cfg.notifId := ButtonIndexes(-1, -1)], map[], None,
             badgeText, map[], 1, [])
  }

  /** Every handle was issued; every per-notification slot names a live timer
      that clears that notification; the poll slot names the live poll
      timer, and no other poll timer is live. */
  ghost predicate Inv(s: ExtState) {
    && (forall h :: h in s.timers ==> h < s.nextHandle)
    && (forall id :: id in s.clearSlots ==>
          s.clearSlots[id] in s.timers && s.timers[s.clearSlots[id]] == ClearAfter(id, s.timers[s.clearSlots[id]].seconds))
    && (s.pollTimer.Some? ==> s.pollTimer.value in s.timers && s.timers[s.pollTimer.value].Poll?)
    && (forall h :: h in s.timers && s.timers[h].Poll? ==> s.pollTimer == Some(h))
  }

  /** The invariant is about timers only: the unread counts do not touch it. */
  lemma InvUnread(s: ExtState, u: Unread)
    requires Inv(s)
    ensures Inv(s.(unread := u))
  {
  }

  /** Nor do the badge text and the effects. */
  lemma InvDisplay(s: ExtState, badgeText: string, effects: seq<Effect>)
    requires Inv(s)
    ensures Inv(s.(badgeText := badgeText, effects := effects))
  {
  }

  lemma InitialInv(cfg: Config, badgeText: string)
    ensures Inv(Initial(cfg, badgeText))
  {
  }

  // ---------------------------------------------------------------------
  // Counts and badge text
  // ---------------------------------------------------------------------

  /** `count === '' ? 0 : parseInt(count, 10)`. */
  function CountOf(count: JsValue): (c: Num)
    ensures count == Str("") ==> c == Int(0)
  {
    if count == Str("") then Int(0) else ParseIntValue(count)
  }

  /** A count read from the page text comes back as the number it shows. */
  lemma CountOfDecimal(n: int)
    ensures CountOf(Str(IntToString(n))) == Int(n)
    ensures CountOf(Number(n)) == Int(n)
  {
    ParseIntOfDecimal(n);
  }

  /** `this._unread.notifs + this._unread.messages`: NaN when either is NaN. */
  function Total(u: Unread): (t: Num)
    ensures t.Int? <==> u.notifs.Int? && u.messages.Int?
    ensures t.Int? ==> t.i == u.notifs.i + u.messages.i
  {
    if u.notifs.NaN? || u.messages.NaN? then NaN else Int(u.notifs.i + u.messages.i)
  }

  /** The badge shows nothing for a zero total and the shortened count otherwise. */
  function NewBadgeText(total: Num): (t: string)
    ensures t == "" <==> total == Int(0)
  {
    if total == Int(0) then "" else
      var r := ShortenCount(total);
      assert |r| > 0;
      r
  }

  /** A changed badge does not notify when the total is zero, or when the old
      text is numeric and sorts after the new text as a string. */
  predicate Silenced(current: string, newText: string, total: Num) {
    total == Int(0) || (!IsNaNString(current) && StrLess(newText, current))
  }

  // ---------------------------------------------------------------------
  // Notification contents
  // ---------------------------------------------------------------------

  predicate Positive(n: Num) { n.Int? && n.i > 0 }

  /** The indexes `buildNotifParams` stores: the notifications button comes
      first when there are notifications, the messages button after it. */
  function Indexes(u: Unread): ButtonIndexes {
    ButtonIndexes(
      if Positive(u.notifs) then 0 else -1,
      if Positive(u.messages) then (if Positive(u.notifs) then 1 else 0) else -1)
  }

  function NotifsTitle(n: int): string { "View " + Plural(n, "Notification") }

  function MessagesTitle(n: int): string { "View " + Plural(n, "Message") }

  function BellIcon(prefs: map<string, JsValue>, isFirefox: bool): string {
    if isFirefox then "\U{1F514}" else "img/bell-" + ToJsString(Prop(prefs, BellIconStyleName)) + ".svg"
  }

  function EnvelopeIcon(prefs: map<string, JsValue>, isFirefox: bool): string {
    if isFirefox then "\U{2709}" else "img/envelope-" + ToJsString(Prop(prefs, EnvelopeIconStyleName)) + ".svg"
  }

  function NotifsButton(prefs: map<string, JsValue>, n: int, isFirefox: bool): Button {
    Button(NotifsTitle(n), if Truthy(Prop(prefs, NotifIconsName)) then Str(BellIcon(prefs, isFirefox)) else Undefined)
  }

  function MessagesButton(prefs: map<string, JsValue>, n: int, isFirefox: bool): Button {
    Button(MessagesTitle(n), if Truthy(Prop(prefs, NotifIconsName)) then Str(EnvelopeIcon(prefs, isFirefox)) else Undefined)
  }

  /** The buttons `buildNotifParams` pushes, in order. */
  function Buttons(prefs: map<string, JsValue>, u: Unread, isFirefox: bool): seq<Button> {
    (if Positive(u.notifs) then [NotifsButton(prefs, u.notifs.i, isFirefox)] else [])
    + (if Positive(u.messages) then [MessagesButton(prefs, u.messages.i, isFirefox)] else [])
  }

  /** `title.replace(/^View /, '')`. */
  function StripView(title: string): (r: string)
    ensures |title| >= 5 && title[..5] == "View " ==> title == "View " + r
  {
    if |title| >= 5 && title[..5] == "View " then title[5..] else title
  }

  /** The line Firefox shows for one button in place of the button. */
  function ButtonLine(b: Button, displayIcons: bool): string {
    "\n" + (if displayIcons then ToJsString(b.iconUrl) + "   " else "") + StripView(b.title)
  }

  /** The lines of all buttons, one after another. */
  function ButtonLines(bs: seq<Button>, displayIcons: bool): string {
    if |bs| == 0 then "" else ButtonLines(bs[..|bs| - 1], displayIcons) + ButtonLine(bs[|bs| - 1], displayIcons)
  }

  lemma AppendAssoc(a: string, b: string, c: string)
    ensures (a + b) + c == a + (b + c)
  {}

  lemma ButtonLinesNext(bs: seq<Button>, i: nat, displayIcons: bool)
    requires i < |bs|
    ensures ButtonLines(bs[..i + 1], displayIcons) == ButtonLines(bs[..i], displayIcons) + ButtonLine(bs[i], displayIcons)
  {
    assert bs[..i + 1][..i] == bs[..i];
  }

  const BaseParams: NotifParams :=
    NotifParams("basic", "img/notif-128.png", "Derpibooru", "You have unread notifications", None, None, None)

  const FirefoxHeader: string := BaseParams.message + ":\n"

  /** The notification `buildNotifParams` returns: with buttons, persistence
      and silence off Firefox, with the buttons written into the message on it. */
  function ParamsFor(prefs: map<string, JsValue>, u: Unread, isFirefox: bool): NotifParams {
    var buttons := Buttons(prefs, u, isFirefox);
    if !isFirefox then
      BaseParams.(buttons := Some(buttons),
                  requireInteraction := Some(Prop(prefs, NotifTimeoutName) == Number(0)),
                  silent := Some(true))
    else
      BaseParams.(message := FirefoxHeader + ButtonLines(buttons, Truthy(Prop(prefs, NotifIconsName))))
  }

  /** There is one button per positive count; each stored index names the
      button of its page, and an index is -1 exactly when its count is not
      positive. */
  lemma ButtonsMatchIndexes(prefs: map<string, JsValue>, u: Unread, isFirefox: bool)
    ensures var bs, ix := Buttons(prefs, u, isFirefox), Indexes(u);
      && |bs| == (if Positive(u.notifs) then 1 else 0) + (if Positive(u.messages) then 1 else 0)
      && (ix.notifs == -1 <==> !Positive(u.notifs))
      && (ix.messages == -1 <==> !Positive(u.messages))
      && (ix.notifs != -1 ==> 0 <= ix.notifs < |bs| && bs[ix.notifs].title == NotifsTitle(u.notifs.i))
      && (ix.messages != -1 ==> 0 <= ix.messages < |bs| && bs[ix.messages].title == MessagesTitle(u.messages.i))
      && (ix.notifs != -1 && ix.messages != -1 ==> ix.notifs != ix.messages)
  {
  }

  lemma StripViewPrefix(r: string)
    ensures StripView("View " + r) == r
  {
    assert ("View " + r)[..5] == "View ";
  }

  /** The text of a title without its `View ` reads back as the count. */
  lemma TitlesSayTheCount(n: int)
    ensures ParseInt(StripView(NotifsTitle(n))) == Int(n)
    ensures ParseInt(StripView(MessagesTitle(n))) == Int(n)
  {
    StripViewPrefix(Plural(n, "Notification"));
    StripViewPrefix(Plural(n, "Message"));
  }

  // ---------------------------------------------------------------------
  // Timers and notification lifetime
  // ---------------------------------------------------------------------

  /** `clearNotifTimeout(id)`: cancel the pending timer of `id` and forget it. */
  function ClearNotifTimeoutStep(s: ExtState, id: string): ExtState {
    if id in s.clearSlots
    then s.(timers := s.timers - {s.clearSlots[id]}, clearSlots := s.clearSlots - {id})
    else s
  }

  /** `setNotifTimeout(prefs, id)`: schedule a timer that clears `id`, and
      remember it in the slot of `id`, over whatever the slot held. */
  function SetNotifTimeoutStep(s: ExtState, prefs: map<string, JsValue>, id: string): ExtState {
    var h := s.nextHandle;
    s.(timers := s.timers[h := ClearAfter(id, Prop(prefs, NotifTimeoutName))],
       clearSlots := s.clearSlots[id := h],
       nextHandle := h + 1)
  }

  /** `clearNotif(id)`: close the notification, then forget the slot of `id`. */
  function ClearNotifStep(s: ExtState, id: string): ExtState {
    s.(effects := s.effects + [ClearNotif(id)], clearSlots := s.clearSlots - {id})
  }

  /** The button-index part of `buildNotifParams`. */
  function BuildParamsStep(s: ExtState, u: Unread, id: string): ExtState {
    s.(buttonIndexes := s.buttonIndexes[id := Indexes(u)])
  }

  /** `createNotif(prefs, params, id)`: show it, then schedule its clearing
      unless it asks to stay until the user acts. */
  function CreateNotifStep(s: ExtState, prefs: map<string, JsValue>, params: NotifParams, id: string): ExtState {
    var s1 := s.(effects := s.effects + [ShowNotif(id, params)]);
    if params.requireInteraction == Some(true) then s1 else SetNotifTimeoutStep(s1, prefs, id)
  }

  /** `notifyUser(prefs, unread, id)`. */
  function NotifyStep(s: ExtState, prefs: map<string, JsValue>, u: Unread, id: string, isFirefox: bool): ExtState {
    var s1 := if Truthy(Prop(prefs, NotifSoundName)) then s.(effects := s.effects + [PlaySound]) else s;
    if Truthy(Prop(prefs, NotifEnabledName)) then
      CreateNotifStep(BuildParamsStep(ClearNotifTimeoutStep(s1, id), u, id), prefs, ParamsFor(prefs, u, isFirefox), id)
    else s1
  }

  /** `setBadgeText()`, with the badge read and write taken as one step. */
  function SetBadgeTextStep(s: ExtState, prefs: map<string, JsValue>, cfg: Config): ExtState {
    var total := Total(s.unread);
    var t := NewBadgeText(total);
    if s.badgeText == t then s
    else
      var s1 := s.(badgeText := t, effects := s.effects + [SetBadgeText(t)]);
      if Silenced(s.badgeText, t, total) then s1
      else NotifyStep(s1, prefs, s.unread, cfg.notifId, cfg.isFirefox)
  }

  /** A host timer fires. A clearing timer is used up and clears its
      notification; the poll interval stays and polls the site, which is
      not part of this model. */
  function FireTimerStep(s: ExtState, h: nat): ExtState
    requires h in s.timers
  {
    match s.timers[h]
    case ClearAfter(id, _) => ClearNotifStep(s.(timers := s.timers - {h}), id)
    case Poll(_) => s
  }

  // ---------------------------------------------------------------------
  // Badge colour and polling
  // ---------------------------------------------------------------------

  /** `setBadgeSignedOut()`. */
  function BadgeSignedOutStep(s: ExtState): ExtState {
    s.(badgeText := SignedOutText,
       effects := s.effects + [SetBadgeBackground(Str(SignedOutColor)), SetBadgeText(SignedOutText)])
  }

  /** `setBadgeSignedIn()`: paint the badge in the configured colour, if any. */
  function BadgeSignedInStep(s: ExtState, prefs: map<string, JsValue>): ExtState {
    var color := Prop(prefs, BadgeColorName);
    if Truthy(color) then s.(effects := s.effects + [SetBadgeBackground(color)]) else s
  }

  /** `setBadgeColor()`: repaint, except on the signed-out badge. */
  function SetBadgeColorStep(s: ExtState, prefs: map<string, JsValue>): ExtState {
    if s.badgeText == SignedOutText then s else BadgeSignedInStep(s, prefs)
  }

  /** `restartUpdateInterval()`: cancel the poll interval, start a new one. */
  function RestartUpdateIntervalStep(s: ExtState, prefs: map<string, JsValue>): ExtState {
    var timers := if s.pollTimer.Some? then s.timers - {s.pollTimer.value} else s.timers;
    var h := s.nextHandle;
    s.(timers := timers[h := Poll(Prop(prefs, UpdateIntervalName))], pollTimer := Some(h), nextHandle := h + 1)
  }

  // ---------------------------------------------------------------------
  // Theme
  // ---------------------------------------------------------------------

  /** `setAutoTheme(attr)`: the part of the page's `data-theme` before the
      first dash; an absent attribute makes `split` throw and nothing changes. */
  function SetAutoThemeStep(s: ExtState, attr: Option<string>): ExtState {
    if attr.None? then s else s.(autoTheme := BeforeDash(attr.value))
  }

  /** `getTheme(prefs)`. */
  function Theme(prefs: map<string, JsValue>, autoTheme: string): (r: Result<JsValue>)
    ensures r.Err? ==> r.message == "Auto theme value not found"
  {
    var setting := Prop(prefs, ThemeName);
    if setting == Str("auto") then
      if autoTheme != "" then Ok(Str(autoTheme)) else Err("Auto theme value not found")
    else Ok(setting)
  }

  /** The theme is the setting unless that is `auto`; then it is the page's
      theme name as `setAutoTheme` recorded it, and reading it throws when
      the page's attribute was empty or began with a dash. */
  lemma {:induction false} ThemeAfterAutoTheme(s: ExtState, prefs: map<string, JsValue>, attr: string)
    ensures var r := Theme(prefs, SetAutoThemeStep(s, Some(attr)).autoTheme);
      && (Prop(prefs, ThemeName) != Str("auto") ==> r == Ok(Prop(prefs, ThemeName)))
      && (Prop(prefs, ThemeName) == Str("auto") ==>
            (r.Err? <==> (|attr| == 0 || attr[0] == '-'))
            && (r.Ok? ==>
                  && r.value.Str? && attr == r.value.s + attr[|r.value.s|..]
                  && (forall i :: 0 <= i < |r.value.s| ==> r.value.s[i] != '-')
                  && (|r.value.s| < |attr| ==> attr[|r.value.s|] == '-')))
  {
    var t := BeforeDash(attr);
    assert attr == t + attr[|t|..];
  }

  // ---------------------------------------------------------------------
  // Buttons clicked
  // ---------------------------------------------------------------------

  /** The page a click on button `btnIndex` opens: the first stored index
      equal to it decides (`switch` compares with `===`). */
  function ClickTarget(ix: ButtonIndexes, btnIndex: int): Option<string> {
    if btnIndex == ix.notifs then Some(NotifsPath)
    else if btnIndex == ix.messages then Some(MessagesPath)
    else None
  }

  /** `makeURLFromPath(path)`. */
  function PageUrl(prefs: map<string, JsValue>, path: string): string {
    "https://" + ToJsString(Prop(prefs, PreferredDomainName)) + path
  }

  /** The `onButtonClicked` listener: open the page of the clicked button,
      then close the notification (its timer slot and button map stay).
      None when the id has no button map: reading its indexes throws. */
  function ClickStep(s: ExtState, prefs: map<string, JsValue>, id: string, btnIndex: int): Option<ExtState> {
    if id !in s.buttonIndexes then None
    else
      var target := ClickTarget(s.buttonIndexes[id], btnIndex);
      var pages := if target.Some? then [OpenTab(PageUrl(prefs, target.value))] else [];
      Some(s.(effects := s.effects + pages + [ClearNotif(id)]))
  }

  /** Firefox's `notifications.onClicked` listener: close the notification. */
  function BodyClickStep(s: ExtState, id: string): ExtState {
    s.(effects := s.effects + [ClearNotif(id)])
  }

  /** A click on a button of a notification built for `u` opens exactly the
      page that button names. */
  lemma ClickOpensButtonPage(prefs: map<string, JsValue>, u: Unread, isFirefox: bool, i: int)
    requires 0 <= i
    ensures var bs, t := Buttons(prefs, u, isFirefox), ClickTarget(Indexes(u), i);
      && (i < |bs| ==> t.Some?)
      && (i >= |bs| ==> t.None?)
      && (t == Some(NotifsPath) ==> bs[i].title == NotifsTitle(u.notifs.i))
      && (t == Some(MessagesPath) ==> bs[i].title == MessagesTitle(u.messages.i))
  {
    ButtonsMatchIndexes(prefs, u, isFirefox);
  }
}
