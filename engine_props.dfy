/** What the engine's steps guarantee: the timer invariant, when a badge
    change notifies, what a notification does to timers and buttons, and how
    clicks are dispatched. */
module EngineProps {
  import opened Decimal
  import opened JsValues
  import opened JsStrings
  import opened Format
  import opened Engine

  // ---------------------------------------------------------------------
  // The timer invariant is kept by every step
  // ---------------------------------------------------------------------

  lemma InvClearNotifTimeout(s: ExtState, id: string)
    requires Inv(s)
    ensures Inv(ClearNotifTimeoutStep(s, id))
  {
    if id in s.clearSlots {
      var s' := ClearNotifTimeoutStep(s, id);
      var h := s.clearSlots[id];
      forall id' | id' in s'.clearSlots
        ensures s'.clearSlots[id'] in s'.timers
      {
        assert s.timers[s.clearSlots[id']].ClearAfter? && s.timers[s.clearSlots[id']].id == id';
        assert s.clearSlots[id'] != h;
      }
    }
  }

  lemma InvSetNotifTimeout(s: ExtState, prefs: map<string, JsValue>, id: string)
    requires Inv(s)
    ensures Inv(SetNotifTimeoutStep(s, prefs, id))
  {
  }

  lemma InvClearNotif(s: ExtState, id: string)
    requires Inv(s)
    ensures Inv(ClearNotifStep(s, id))
  {
  }

  lemma InvNotify(s: ExtState, prefs: map<string, JsValue>, u: Unread, id: string, isFirefox: bool)
    requires Inv(s)
    ensures Inv(NotifyStep(s, prefs, u, id, isFirefox))
  {
    var s1 := if Truthy(Prop(prefs, NotifSoundName)) then s.(effects := s.effects + [PlaySound]) else s;
    InvClearNotifTimeout(s1, id);
    var s2 := BuildParamsStep(ClearNotifTimeoutStep(s1, id), u, id);
    InvSetNotifTimeout(s2.(effects := s2.effects + [ShowNotif(id, ParamsFor(prefs, u, isFirefox))]), prefs, id);
  }

  lemma InvSetBadgeText(s: ExtState, prefs: map<string, JsValue>, cfg: Config)
    requires Inv(s)
    ensures Inv(SetBadgeTextStep(s, prefs, cfg))
  {
    var t := NewBadgeText(Total(s.unread));
    if s.badgeText != t {
      InvNotify(s.(badgeText := t, effects := s.effects + [SetBadgeText(t)]), prefs, s.unread, cfg.notifId, cfg.isFirefox);
    }
  }

  lemma InvFireTimer(s: ExtState, h: nat)
    requires Inv(s) && h in s.timers
    ensures Inv(FireTimerStep(s, h))
  {
    if s.timers[h].ClearAfter? {
      var id := s.timers[h].id;
      var s1 := s.(timers := s.timers - {h});
      forall id' | id' in s1.clearSlots && id' != id
        ensures s1.clearSlots[id'] in s1.timers
      {
        assert s.timers[s.clearSlots[id']].id == id';
      }
    }
  }

  lemma InvRestartUpdateInterval(s: ExtState, prefs: map<string, JsValue>)
    requires Inv(s)
    ensures Inv(RestartUpdateIntervalStep(s, prefs))
  {
    var s' := RestartUpdateIntervalStep(s, prefs);
    forall id | id in s'.clearSlots
      ensures s'.clearSlots[id] in s'.timers
    {
      assert s.timers[s.clearSlots[id]].ClearAfter?;
    }
  }

  // ---------------------------------------------------------------------
  // When a badge change notifies
  // ---------------------------------------------------------------------

  /** The effects a step added to the log. */
  function Added(s: ExtState, s': ExtState): seq<Effect>
    requires |s.effects| <= |s'.effects|
  {
    s'.effects[|s.effects|..]
  }

  predicate ShowsNotif(es: seq<Effect>) {
    exists k :: 0 <= k < |es| && es[k].ShowNotif?
  }

  lemma AfterPrefix(a: seq<Effect>, e: Effect, c: seq<Effect>)
    requires |a| + 1 <= |c| && c[..|a| + 1] == a + [e]
    ensures c[|a|..] == [e] + c[|a| + 1..]
  {
    assert c[|a|] == (a + [e])[|a|];
  }

  /** An effect other than showing a notification, put in front, does not
      change whether a notification is shown. */
  lemma ShowsNotifAfter(e: Effect, rest: seq<Effect>)
    requires !e.ShowNotif?
    ensures ShowsNotif([e] + rest) <==> ShowsNotif(rest)
  {
    if ShowsNotif(rest) {
      var k :| 0 <= k < |rest| && rest[k].ShowNotif?;
      assert ([e] + rest)[k + 1].ShowNotif?;
    }
    if ShowsNotif([e] + rest) {
      var k :| 0 <= k < |[e] + rest| && ([e] + rest)[k].ShowNotif?;
      assert rest[k - 1].ShowNotif?;
    }
  }

  lemma CreateNotifEffects(s: ExtState, prefs: map<string, JsValue>, params: NotifParams, id: string)
    ensures var s' := CreateNotifStep(s, prefs, params, id);
      && s'.effects == s.effects + [ShowNotif(id, params)]
      && s'.unread == s.unread && s'.badgeText == s.badgeText && s'.autoTheme == s.autoTheme
  {
  }

  lemma NotifyStoresIndexes(s: ExtState, prefs: map<string, JsValue>, u: Unread, id: string, isFirefox: bool)
    requires Truthy(Prop(prefs, NotifEnabledName))
    ensures NotifyStep(s, prefs, u, id, isFirefox).buttonIndexes == s.buttonIndexes[id := Indexes(u)]
  {
    var s1 := if Truthy(Prop(prefs, NotifSoundName)) then s.(effects := s.effects + [PlaySound]) else s;
    var s2 := BuildParamsStep(ClearNotifTimeoutStep(s1, id), u, id);
    assert s2.buttonIndexes == s.buttonIndexes[id := Indexes(u)];
  }

  /** The effects `notifyUser` issues: the sound if `notifSound` is on, then
      the notification if `notifEnabled` is on. */
  lemma NotifyEffects(s: ExtState, prefs: map<string, JsValue>, u: Unread, id: string, isFirefox: bool)
    ensures var s' := NotifyStep(s, prefs, u, id, isFirefox);
      && s'.effects == s.effects
           + (if Truthy(Prop(prefs, NotifSoundName)) then [PlaySound] else [])
           + (if Truthy(Prop(prefs, NotifEnabledName)) then [ShowNotif(id, ParamsFor(prefs, u, isFirefox))] else [])
      && s'.unread == s.unread && s'.badgeText == s.badgeText && s'.autoTheme == s.autoTheme
  {
    var s1 := if Truthy(Prop(prefs, NotifSoundName)) then s.(effects := s.effects + [PlaySound]) else s;
    if Truthy(Prop(prefs, NotifEnabledName)) {
      CreateNotifEffects(BuildParamsStep(ClearNotifTimeoutStep(s1, id), u, id), prefs, ParamsFor(prefs, u, isFirefox), id);
    }
  }

  lemma ShowsNotifOf(sound: seq<Effect>, shown: seq<Effect>, p: NotifParams, id: string)
    requires sound == [] || sound == [PlaySound]
    requires shown == [] || shown == [ShowNotif(id, p)]
    ensures ShowsNotif(sound + shown) <==> shown != []
  {
    var es := sound + shown;
    if shown != [] {
      assert es[|es| - 1].ShowNotif?;
    } else {
      assert es == sound;
    }
  }

  /** `notifyUser` plays the sound whenever `notifSound` is on, whatever
      `notifEnabled` says, and shows a notification exactly when
      `notifEnabled` is on. */
  lemma NotifySoundAndShow(s: ExtState, prefs: map<string, JsValue>, u: Unread, id: string, isFirefox: bool)
    ensures var s' := NotifyStep(s, prefs, u, id, isFirefox);
      && |s.effects| <= |s'.effects| && s'.effects[..|s.effects|] == s.effects
      && (|Added(s, s')| > 0 && Added(s, s')[0] == PlaySound <==> Truthy(Prop(prefs, NotifSoundName)))
      && (ShowsNotif(Added(s, s')) <==> Truthy(Prop(prefs, NotifEnabledName)))
      && s'.unread == s.unread && s'.badgeText == s.badgeText && s'.autoTheme == s.autoTheme
  {
    var s' := NotifyStep(s, prefs, u, id, isFirefox);
    NotifyEffects(s, prefs, u, id, isFirefox);
    var p := ParamsFor(prefs, u, isFirefox);
    var sound := if Truthy(Prop(prefs, NotifSoundName)) then [PlaySound] else [];
    var shown := if Truthy(Prop(prefs, NotifEnabledName)) then [ShowNotif(id, p)] else [];
    assert s'.effects == s.effects + (sound + shown);
    assert Added(s, s') == sound + shown;
    ShowsNotifOf(sound, shown, p, id);
  }

  /** A badge update shows a notification exactly when the text changes, the
      change is not silenced, and notifications are enabled. */
  lemma BadgeNotifiesIff(s: ExtState, prefs: map<string, JsValue>, cfg: Config)
    ensures var s', t := SetBadgeTextStep(s, prefs, cfg), NewBadgeText(Total(s.unread));
      && |s.effects| <= |s'.effects|
      && s'.badgeText == t && s'.unread == s.unread
      && (ShowsNotif(Added(s, s')) <==>
            s.badgeText != t && !Silenced(s.badgeText, t, Total(s.unread)) && Truthy(Prop(prefs, NotifEnabledName)))
  {
    var s' := SetBadgeTextStep(s, prefs, cfg);
    var t := NewBadgeText(Total(s.unread));
    if s.badgeText != t {
      var s1 := s.(badgeText := t, effects := s.effects + [SetBadgeText(t)]);
      if !Silenced(s.badgeText, t, Total(s.unread)) {
        NotifySoundAndShow(s1, prefs, s.unread, cfg.notifId, cfg.isFirefox);
        AfterPrefix(s.effects, SetBadgeText(t), s'.effects);
        ShowsNotifAfter(SetBadgeText(t), Added(s1, s'));
      } else {
        assert Added(s, s') == [SetBadgeText(t)];
      }
    } else {
      assert Added(s, s') == [];
    }
  }

  /** A second badge update without new counts changes nothing. */
  lemma BadgeTextSettles(s: ExtState, prefs: map<string, JsValue>, cfg: Config)
    ensures var s1 := SetBadgeTextStep(s, prefs, cfg);
      SetBadgeTextStep(s1, prefs, cfg) == s1
  {
    var t := NewBadgeText(Total(s.unread));
    if s.badgeText != t {
      var s1 := s.(badgeText := t, effects := s.effects + [SetBadgeText(t)]);
      NotifySoundAndShow(s1, prefs, s.unread, cfg.notifId, cfg.isFirefox);
    }
  }

  /** Going from 10 unread to 9 notifies again: "9" sorts after "10". */
  lemma TenToNineNotifies()
    ensures !Silenced("10", "9", Int(9))
  {
    assert "10" == IntToString(10) by {
      assert NatToString(10) == NatToString(1) + [DigitChar(0)];
    }
    DecimalIsNumeric(10);
    assert !StrLess("9", "10") by {
      assert "9"[0] != "10"[0];
    }
  }

  /** Between counts written with the same number of digits, a decrease is
      silent and an increase notifies. */
  lemma SameWidthCounts(a: nat, b: nat)
    requires b > 0 && |NatToString(a)| == |NatToString(b)|
    ensures Silenced(NatToString(a), NatToString(b), Int(b)) <==> b < a
  {
    DecimalIsNumeric(a);
    DecimalOrder(b, a);
  }

  /** An old badge that is not a number, such as a shortened count (`12k`),
      the signed-out `?` or `NaNm`, never silences a change to a non-zero total. */
  lemma NonNumericOldBadgeNotifies(current: string, newText: string, total: Num)
    requires total != Int(0)
    requires IsNaNString(current)
    ensures !Silenced(current, newText, total)
  {
  }

  lemma ShortenedOldBadgeNotifies(previous: Num, newText: string, total: Num)
    requires previous.NaN? || previous.i >= 10000
    requires total != Int(0)
    ensures !Silenced(ShortenCount(previous), newText, total)
  {
    ShortenedIffNaN(previous);
  }

  lemma SignedOutBadgeNotifies(newText: string, total: Num)
    requires total != Int(0)
    ensures !Silenced(SignedOutText, newText, total)
  {
    var t := SignedOutText;
    assert t[0] == '?';
    BadStartIsNaN(t);
  }

  /** An empty old badge is numeric for `isNaN`, but no text sorts before it,
      so every non-zero total notifies. */
  lemma EmptyOldBadgeNotifies(newText: string, total: Num)
    requires total != Int(0)
    ensures !Silenced("", newText, total)
  {
  }

  // ---------------------------------------------------------------------
  // Badge colour
  // ---------------------------------------------------------------------

  /** `setBadgeColor` never changes the text. It changes something exactly
      when the badge is not `?` and the configured colour is truthy, and then
      it only asks for that colour as the background. */
  lemma BadgeColorRepaint(s: ExtState, prefs: map<string, JsValue>)
    ensures var t, color := SetBadgeColorStep(s, prefs), Prop(prefs, BadgeColorName);
      && t.badgeText == s.badgeText
      && (t != s <==> s.badgeText != SignedOutText && Truthy(color))
      && (t != s ==> t == s.(effects := s.effects + [SetBadgeBackground(color)]))
  {
    var t, color := SetBadgeColorStep(s, prefs), Prop(prefs, BadgeColorName);
    if s.badgeText != SignedOutText && Truthy(color) {
      assert |t.effects| == |s.effects| + 1;
    }
  }

  /** After `setBadgeSignedOut` the badge reads `?`, so a later colour change
      leaves it dark grey. */
  lemma SignedOutIgnoresColor(s: ExtState, prefs: map<string, JsValue>)
    ensures BadgeSignedOutStep(s).badgeText == SignedOutText
    ensures SetBadgeColorStep(BadgeSignedOutStep(s), prefs) == BadgeSignedOutStep(s)
  {
  }

  // ---------------------------------------------------------------------
  // Notification lifetime
  // ---------------------------------------------------------------------

  /** With notifications enabled, `notifyUser` cancels the pending timer of
      the id, stores the indexes of the new buttons, and schedules a fresh
      clearing timer unless the notification persists: it persists only off
      Firefox and only when `notifTimeout` is exactly the number 0. */
  lemma NotifyTimers(s: ExtState, prefs: map<string, JsValue>, u: Unread, id: string, isFirefox: bool)
    requires Inv(s)
    requires Truthy(Prop(prefs, NotifEnabledName))
    ensures var s' := NotifyStep(s, prefs, u, id, isFirefox);
      && s'.buttonIndexes == s.buttonIndexes[id := Indexes(u)]
      && (id in s.clearSlots ==> s.clearSlots[id] !in s'.timers)
      && (id in s'.clearSlots <==> isFirefox || Prop(prefs, NotifTimeoutName) != Number(0))
      && (id in s'.clearSlots ==>
            && s'.clearSlots[id] == s.nextHandle
            && s'.timers[s.nextHandle] == ClearAfter(id, Prop(prefs, NotifTimeoutName)))
      && (forall id' :: id' != id ==> (id' in s'.clearSlots <==> id' in s.clearSlots))
  {
    var s1 := if Truthy(Prop(prefs, NotifSoundName)) then s.(effects := s.effects + [PlaySound]) else s;
    var s2 := BuildParamsStep(ClearNotifTimeoutStep(s1, id), u, id);
    PersistsIff(prefs, u, isFirefox);
    CreateNotifTimers(s2, prefs, ParamsFor(prefs, u, isFirefox), id);
    if id in s.clearSlots {
      assert s.clearSlots[id] < s.nextHandle;
    }
  }

  /** Only a notification built off Firefox with `notifTimeout` exactly the
      number 0 asks to stay until the user acts. */
  lemma PersistsIff(prefs: map<string, JsValue>, u: Unread, isFirefox: bool)
    ensures ParamsFor(prefs, u, isFirefox).requireInteraction == Some(true) <==>
      !isFirefox && Prop(prefs, NotifTimeoutName) == Number(0)
  {
  }

  /** `createNotif` leaves the stored indexes alone and, unless the
      notification persists, schedules its clearing. */
  lemma CreateNotifTimers(s: ExtState, prefs: map<string, JsValue>, params: NotifParams, id: string)
    ensures var s' := CreateNotifStep(s, prefs, params, id);
      && s'.buttonIndexes == s.buttonIndexes
      && (params.requireInteraction == Some(true) ==>
            s'.timers == s.timers && s'.clearSlots == s.clearSlots && s'.nextHandle == s.nextHandle)
      && (params.requireInteraction != Some(true) ==>
            && s'.timers == s.timers[s.nextHandle := ClearAfter(id, Prop(prefs, NotifTimeoutName))]
            && s'.clearSlots == s.clearSlots[id := s.nextHandle])
  {
  }

  /** `setNotifTimeout` over a pending timer leaves that timer running; when
      it fires it closes the notification and forgets the new slot, while
      the new timer keeps running with no slot naming it. */
  lemma StaleTimerClearsEarly(s: ExtState, prefs: map<string, JsValue>, id: string)
    requires Inv(s) && id in s.clearSlots
    ensures var stale := s.clearSlots[id];
      var s1 := SetNotifTimeoutStep(s, prefs, id);
      && stale in s1.timers && s1.clearSlots[id] == s.nextHandle != stale
      && var s2 := FireTimerStep(s1, stale);
         && id !in s2.clearSlots
         && s.nextHandle in s2.timers
         && s2.effects == s.effects + [ClearNotif(id)]
  {
    assert s.clearSlots[id] < s.nextHandle;
  }

  /** Closing a notification forgets only its timer slot: its timer and its
      button map stay, so a later click on it still dispatches. */
  lemma ClearNotifKeepsButtons(s: ExtState, prefs: map<string, JsValue>, id: string, btnIndex: int)
    requires id in s.buttonIndexes
    ensures var s' := ClearNotifStep(s, id);
      && id !in s'.clearSlots
      && s'.timers == s.timers && s'.buttonIndexes == s.buttonIndexes
      && ClickStep(s', prefs, id, btnIndex).Some?
  {
  }

  // ---------------------------------------------------------------------
  // Clicks
  // ---------------------------------------------------------------------

  /** A click on a button of the notification `notifyUser` just showed opens
      the page of that button and then closes the notification; a click on
      an id without a button map throws and does nothing. */
  lemma ClickAfterNotify(s: ExtState, prefs: map<string, JsValue>, u: Unread, id: string, isFirefox: bool, i: nat)
    requires Truthy(Prop(prefs, NotifEnabledName))
    requires i < |Buttons(prefs, u, isFirefox)|
    ensures var s' := NotifyStep(s, prefs, u, id, isFirefox);
      var target := ClickTarget(Indexes(u), i);
      && target.Some?
      && ClickStep(s', prefs, id, i) == Some(s'.(effects := s'.effects + [OpenTab(PageUrl(prefs, target.value)), ClearNotif(id)]))
  {
    NotifyStoresIndexes(s, prefs, u, id, isFirefox);
    ClickOpensButtonPage(prefs, u, isFirefox, i);
    var s' := NotifyStep(s, prefs, u, id, isFirefox);
    var target := ClickTarget(Indexes(u), i);
    var tab := OpenTab(PageUrl(prefs, target.value));
    assert s'.effects + [tab] + [ClearNotif(id)] == s'.effects + [tab, ClearNotif(id)];
  }

  lemma ClickWithoutMapThrows(s: ExtState, prefs: map<string, JsValue>, id: string, btnIndex: int)
    requires id !in s.buttonIndexes
    ensures ClickStep(s, prefs, id, btnIndex).None?
  {
  }
}
