# Derpi-Notify background engine, modelled in Dafny

Derpi-Notify is a browser extension that watches a Derpibooru-style image board for
unread notifications and messages. It shows the total on the toolbar badge and raises a
desktop notification with one button per kind of unread item. This project models the
extension's background page, `derpinotify/js/background.js`. It covers:

- the text helpers `plural` and `shortenCount`, and the colour brightness `yiq`;
- `ErrorCollection`, which files error messages under setting names;
- `Options`, the settings store. This includes the validation table of `setSetting`,
  `_resolveSetting` / `_rejectSetting`, the batch `processOptions` with its single save,
  the `postSetting` reactions, `get`, and the merge of defaults and stored snapshot in
  `loadUserOptions`;
- `Extension`, the notification state machine. This includes the unread counters, the
  badge-text and notify decision, the per-notification button-index maps, the
  per-notification auto-clear timer slot, and theme resolution;
- the `updateOptions` action of the message router, the `onButtonClicked` listener and
  Firefox's `onClicked` listener.

## How the model is built

- **Values.** JavaScript values are the datatype `JsValues.JsValue`. Numbers are
  integers, and `parseInt` yields `Decimal.Num`, which is an integer or NaN.
- **JavaScript built-ins the engine relies on** are defined with their ECMAScript
  meaning:
  - `parseInt(s, 10)`: `Decimal.ParseInt`;
  - `String(n)`: `Decimal.IntToString`;
  - string `<` / `>`: `JsStrings.StrLess`;
  - `isNaN` of a string: `JsStrings.IsNaNString`;
  - `split('-')[0]`: `JsStrings.BeforeDash`;
  - `$.extend`: `Objects.Extend`, over an object with ordered keys.
- **`Extension` is a class** (`Ext.Extension`) whose fields mirror `_unread`,
  `_meta.autoTheme`, `_buttonIndexes`, `_clearNotifTimeout` and `_updateInterval`. It also
  holds:
  - the browser's badge text;
  - the host's table of live timers and the next timer handle;
  - a ghost log of the effects asked of the browser: setting the badge, showing or
    clearing a notification, playing the sound, opening a tab.

  Every method ensures that its new `Snapshot()` is a pure step function of module
  `Engine` applied to the old one. The properties are lemmas about those step functions,
  in `EngineProps`.
- **`Options` and `ErrorCollection` are classes** (`Prefs.Options`,
  `Prefs.ErrorCollection`). `Options.SetSetting` returns the settled outcome, and that
  outcome equals the pure rule `Settings.Validate`. A batch is specified by
  `Batch.BatchStep` and `Batch.BatchResults`.
- **Outside influences become parameters:**
  - The answer of `checkDomainPermissions` is the set `permitted` of domains whose
    permission is granted.
  - Host timers fire only when `Extension.FireTimer` is called.
  - Storage is the last saved snapshot plus a count of saves.
  - The platform (`isFirefox`) and the notification id are configuration.

## Model

| member | source | states |
|---|---|---|
| Format.Plural | derpinotify/js/background.js:56-59 | the text reads back with `parseInt` as the count; for one it is `1 <word>`; otherwise it ends in the word plus `s` |
| Format.RoundDiv | derpinotify/js/background.js:66-67 | `Math.round(n / d)` on a non-negative numerator: the quotient is the nearest integer, halves rounded up |
| Format.ShortenSmall | derpinotify/js/background.js:61-63 | a count below 10000 is shown in full, reads back as itself, and is numeric for `isNaN` |
| Format.ShortenThousands | derpinotify/js/background.js:64-66 | a count in 10000..999999 is shown as `<k>k`, where k is the nearest number of thousands and lies in 10..1000; the text reads back as k and is not numeric |
| Format.ShortenMillions | derpinotify/js/background.js:64-67 | a count of a million or more is shown as `<k>m`, where k is the nearest number of millions and is at least 1; the text is not numeric |
| Format.ShortenedIffNaN | derpinotify/js/background.js:61-69 | a badge text is non-numeric for `isNaN` exactly when the count is NaN or at least 10000 |
| Color.ColorCodeRoundTrip | derpinotify/js/background.js:133-136 | every three channels in 0..255 have a `#rrggbb` code that passes the colour test and parses back to the same channels |
| Color.YiqRange | derpinotify/js/background.js:71-75 | for channels in 0..255 the brightness lies in 0..255 |
| Color.YiqThreshold | derpinotify/js/background.js:137 | the test `yiq > 180` is equivalent to `299r + 587g + 114b > 180000` |
| Color.BlackAndWhite | derpinotify/js/background.js:137-138 | black is readable and white is too bright; the boundary lies between grey 180 and grey 181 |
| Color.Channels | derpinotify/js/background.js:136 | reading a colour code two hex digits at a time gives three channels in 0..255 |
| Decimal.ParseIntOfDecimalPrefix | derpinotify/js/background.js:161 | `parseInt` of a decimal text followed by a non-digit gives back the number |
| Decimal.ParseIntOfDecimal | derpinotify/js/background.js:188 | `parseInt(String(n))` is `n` for every integer, negative ones included |
| Decimal.DigitsValueOfNatToString | derpinotify/js/background.js:63 | the digits `String(n)` writes have the value `n` |
| JsStrings.DecimalOrder | derpinotify/js/background.js:362 | two badge numbers with the same number of digits compare as strings the way they compare as numbers |
| JsStrings.EqualLengthDigitsOrder | derpinotify/js/background.js:362 | for digit strings of equal length, string order is numeric order |
| JsStrings.DecimalIsNumeric | derpinotify/js/background.js:362 | `isNaN` of any `String(n)` is false |
| JsStrings.SuffixedIsNaN | derpinotify/js/background.js:362 | `isNaN` of a shortened count such as `12k` or `3m` is true |
| JsStrings.BeforeDash | derpinotify/js/background.js:311 | `split('-')[0]` is the longest prefix without a dash, ending just before the first dash |
| JsValues.ParseIntValueOfNumber | derpinotify/js/background.js:160-193 | a number survives `parseInt(value, 10)` unchanged |
| Objects.Copied | derpinotify/js/background.js:120 | the keys `$.extend` copies are keys of the source |
| Objects.ExtendPrefixValues | derpinotify/js/background.js:120 | after `$.extend`, a key defined in the source holds the source's value and any other key keeps the target's value |
| Objects.ExtendPrefixShape | derpinotify/js/background.js:120 | `$.extend` keeps the target's keys, in order, at the front of the result, and the result is well formed |
| Objects.ExtendOverrides | derpinotify/js/background.js:120 | the result holds the target's keys and the source's defined keys; a defined source value wins, otherwise the target's value stays |
| Objects.CopiedKeys | derpinotify/js/background.js:120 | a key among the first n of the source is copied exactly when its value is not undefined |
| Settings.KeyOf | derpinotify/js/background.js:129-196 | the `switch` case matched by a name is the setting spelled that way |
| Settings.KeyOfName | derpinotify/js/background.js:129-196 | every setting is found under its own name |
| Settings.Check | derpinotify/js/background.js:129-196 | each case rejects with exactly one message |
| Settings.ColorRule | derpinotify/js/background.js:130-140 | a badge colour is accepted exactly when it is a `#RRGGBB` string (either case) whose brightness is at most 180 |
| Settings.DomainRule | derpinotify/js/background.js:141-155 | a domain is accepted exactly when `VALID_DOMAINS` lists it and its permission is granted |
| Settings.ListRules | derpinotify/js/background.js:156-186 | theme, bell style and envelope style are accepted exactly when they are strings in their fixed lists |
| Settings.ToggleRules | derpinotify/js/background.js:167-178 | the three toggles are accepted exactly when they are booleans |
| Settings.IntegerRules | derpinotify/js/background.js:160-193 | interval and timeout are accepted exactly when `parseInt` gives an integer of at least 30 (or at least 0); the parsed integer is stored |
| Settings.StoredAsGiven | derpinotify/js/background.js:198-216 | every other accepted setting is stored as given |
| Settings.Validate | derpinotify/js/background.js:126-204 | a rejection carries one message; only a known name is accepted; an unknown name fails with `Missing handler for setting <name>` |
| Settings.PermissionOnlyForListedDomain | derpinotify/js/background.js:141-155 | the permission answer matters only for a `preferredDomain` that `VALID_DOMAINS` lists; for any other call the outcome is the same whatever is permitted |
| Settings.StoredRevalidates | derpinotify/js/background.js:198-239 | a value that was stored passes `setSetting` again and is stored unchanged, so a saved snapshot reloads as saved |
| Settings.IntegerOfText | derpinotify/js/background.js:160-193 | a text that starts with a decimal number, negative ones included, is read as that number and held against the minimum |
| Settings.IntegerFromText | derpinotify/js/background.js:160-193 | a numeric text from the options page, negative ones included, is accepted when its leading number meets the minimum, and the number is stored; otherwise it is refused with that setting's own message |
| Settings.OrderOf | derpinotify/js/background.js:39-50 | every setting has a place in `DEFAULT_OPTIONS` |
| Settings.DefaultsWellFormed | derpinotify/js/background.js:39-50 | the defaults hold each setting once under its own name, and nothing else |
| Settings.DefaultAccepted | derpinotify/js/background.js:39-50 | each default passes its own rule when the first listed domain is permitted |
| Settings.DefaultColorReadable | derpinotify/js/background.js:40 | the default badge colour `#618fc3` is a valid code and readable |
| Settings.DefaultsCopied | derpinotify/js/background.js:120 | copying the defaults into `{}` keeps every defined default |
| Settings.LoadedOptionsMerge | derpinotify/js/background.js:118-121 | parsed values win over defaults; every other setting keeps its default; only parsed keys and known settings appear |
| Settings.DefaultsLoadClean | derpinotify/js/background.js:118-123 | without a stored snapshot every setting loads with its default and each default is accepted |
| Batch.InvPostSetting | derpinotify/js/background.js:241-257 | the reaction to a stored setting keeps the timer invariant |
| Batch.AcceptedKeys | derpinotify/js/background.js:221-229 | only keys whose value the rule accepts are counted as accepted |
| Batch.AcceptedKeysOf | derpinotify/js/background.js:221-229 | a key is accepted exactly when it is in the batch and the rule accepts its value |
| Batch.BatchValues | derpinotify/js/background.js:212-229 | after a batch, each accepted key holds its stored value and every other setting is unchanged |
| Batch.InvBatch | derpinotify/js/background.js:218-235 | a whole batch keeps the timer invariant |
| Batch.BatchResultsAt | derpinotify/js/background.js:221-230 | there is one result per key, in key order; it passes exactly when the rule accepts the value, and otherwise carries the key and the rule's errors |
| Prefs.TotalGrow | derpinotify/js/background.js:86-93 | filing messages under one key raises the total by their number |
| Prefs.TotalPositive | derpinotify/js/background.js:100-102 | the total is positive exactly when some key holds a message |
| Prefs.AddKeepsCount | derpinotify/js/background.js:83-94 | filing keeps the key index and adds the number of messages filed to the count |
| Prefs.ErrorCollection.constructor | derpinotify/js/background.js:78-81 | a new collection is empty with count 0 |
| Prefs.ErrorCollection.Add | derpinotify/js/background.js:83-94 | the messages (one, or an array) go to the end of the key's list, a new key is added after the others, and the count grows by the number added |
| Prefs.ErrorCollection.Any | derpinotify/js/background.js:100-102 | true exactly when some key holds a message |
| Prefs.Options.constructor | derpinotify/js/background.js:106-108 | the settings are the given values; nothing is saved and no permission has been asked |
| Prefs.Options.SaveOptions | derpinotify/js/background.js:237-239 | the stored snapshot becomes the current settings and the save count grows by one |
| Prefs.Options.PostSetting | derpinotify/js/background.js:241-257 | the extension's new state is the reaction `postSetting` prescribes for the name and value |
| Prefs.Options.ResolveSetting | derpinotify/js/background.js:212-216 | only the named setting changes, the extension reacts, and nothing is saved |
| Prefs.Options.SetSetting | derpinotify/js/background.js:126-210 | the outcome is `setSetting`'s rule. If accepted, the stored value is written and reacted to; if rejected, the settings are unchanged. Permission is asked exactly for a listed domain, and nothing is saved. Afterwards `get(name)` returns the stored value when accepted, and `get` of every other name (of every name, when rejected) is unchanged |
| Prefs.Options.CheckValue | derpinotify/js/background.js:129-196 | the `switch` finds the rule's errors and the value to store, and defers exactly the listed-domain case to the permission check |
| Prefs.Options.CheckColor | derpinotify/js/background.js:130-140 | the badge-colour case agrees with the colour rule |
| Prefs.Options.CheckMember | derpinotify/js/background.js:141-186 | the list cases agree with the membership rule |
| Prefs.Options.CheckToggle | derpinotify/js/background.js:167-178 | the toggle cases agree with the boolean rule |
| Prefs.Options.CheckInteger | derpinotify/js/background.js:160-193 | the `parseInt` cases agree with the integer rule and store the parsed number |
| Prefs.Options.SettleAll | derpinotify/js/background.js:220-229 | settling every key in order yields the batch's results and the batch's state, without saving |
| Prefs.Options.ProcessOptions | derpinotify/js/background.js:218-235 | one result per key, in key order; the batch's state; exactly one save, made after all keys settle |
| Prefs.Options.LoadUserOptions | derpinotify/js/background.js:110-124 | processes the merge of defaults and stored snapshot (the defaults alone when nothing parses) |
| Prefs.LoadedWellFormed | derpinotify/js/background.js:118-121 | the merged settings form a well-formed object |
| Engine.InitialInv | derpinotify/js/background.js:269-286 | a new extension satisfies the timer invariant |
| Engine.CountOf | derpinotify/js/background.js:288-296 | an empty count text means zero |
| Engine.CountOfDecimal | derpinotify/js/background.js:288-296 | a count read from the page's text, or given as a number, is that number |
| Engine.NewBadgeText | derpinotify/js/background.js:355 | the new badge text is empty exactly when the total is zero |
| Engine.ButtonsMatchIndexes | derpinotify/js/background.js:382-406 | there is one button per positive count, and each stored index names the button of its kind (−1 when there is none) |
| Engine.TitlesSayTheCount | derpinotify/js/background.js:393-425 | a button title without its `View ` reads back as the count |
| Engine.StripViewPrefix | derpinotify/js/background.js:424 | removing `View ` from `View <r>` leaves `r` |
| Engine.Theme | derpinotify/js/background.js:342-351 | a failure is the error `Auto theme value not found` |
| Engine.ThemeAfterAutoTheme | derpinotify/js/background.js:310-351 | the theme is the setting unless it is `auto`. Then it is the page theme's text before the first dash, and reading it throws exactly when that text is empty |
| Engine.ClickOpensButtonPage | derpinotify/js/background.js:630-639 | a click on button i of a notification opens exactly the page that button names, and a click past the last button opens nothing |
| EngineProps.InvClearNotifTimeout | derpinotify/js/background.js:476-481 | cancelling an id's timer keeps every slot naming a live timer |
| EngineProps.InvSetNotifTimeout | derpinotify/js/background.js:470-474 | scheduling a clearing timer keeps the invariant |
| EngineProps.InvClearNotif | derpinotify/js/background.js:441-448 | closing a notification keeps the invariant |
| EngineProps.InvNotify | derpinotify/js/background.js:369-380 | `notifyUser` keeps the invariant |
| EngineProps.InvSetBadgeText | derpinotify/js/background.js:353-367 | a badge update keeps the invariant |
| EngineProps.InvFireTimer | derpinotify/js/background.js:471-473 | a timer firing keeps the invariant |
| EngineProps.InvRestartUpdateInterval | derpinotify/js/background.js:483-487 | restarting the poll keeps the invariant |
| EngineProps.CreateNotifEffects | derpinotify/js/background.js:431-439 | `createNotif` shows exactly the given notification and touches no count, badge or theme |
| EngineProps.NotifyStoresIndexes | derpinotify/js/background.js:373-406 | with notifications on, the id's button map becomes the indexes of the new buttons, and other ids keep theirs |
| EngineProps.NotifyEffects | derpinotify/js/background.js:369-380 | the effects are the sound if `notifSound` is on, then the notification if `notifEnabled` is on |
| EngineProps.NotifySoundAndShow | derpinotify/js/background.js:369-380 | the sound plays exactly when `notifSound` is on, even with notifications off; a notification is shown exactly when `notifEnabled` is on |
| EngineProps.BadgeNotifiesIff | derpinotify/js/background.js:353-367 | the badge takes the new text, and a notification is shown exactly when the text changed, the change is not silenced, and notifications are on |
| EngineProps.BadgeTextSettles | derpinotify/js/background.js:357-358 | a second badge update without new counts changes nothing |
| EngineProps.TenToNineNotifies | derpinotify/js/background.js:362 | going from 10 to 9 notifies again, because `"10" > "9"` is false |
| EngineProps.SameWidthCounts | derpinotify/js/background.js:362 | between counts of equal width, a change is silenced exactly when it is a decrease |
| EngineProps.NonNumericOldBadgeNotifies | derpinotify/js/background.js:362 | a non-numeric old badge never silences a nonzero total |
| EngineProps.ShortenedOldBadgeNotifies | derpinotify/js/background.js:353-367 | after a shortened badge (`12k`, `3m`), every change of a nonzero total notifies |
| EngineProps.SignedOutBadgeNotifies | derpinotify/js/background.js:353-367 | after the signed-out badge `?`, every change of a nonzero total notifies |
| EngineProps.EmptyOldBadgeNotifies | derpinotify/js/background.js:362 | an empty old badge counts as numeric but is greater than no text, so it never silences |
| EngineProps.NotifyTimers | derpinotify/js/background.js:369-435 | with notifications on, the id's pending timer is cancelled and its indexes are stored. A fresh clearing timer is scheduled exactly unless the notification persists. Other ids keep their slots |
| EngineProps.PersistsIff | derpinotify/js/background.js:407-420 | a notification asks to persist exactly off Firefox and when `notifTimeout` is the number 0 |
| EngineProps.CreateNotifTimers | derpinotify/js/background.js:431-474 | `createNotif` schedules a clearing timer exactly when the notification does not persist, and keeps the indexes |
| EngineProps.StaleTimerClearsEarly | derpinotify/js/background.js:470-474 | rescheduling over a pending timer leaves that timer running; when it fires it closes the notification and forgets the new slot, while the new timer stays live |
| EngineProps.ClearNotifKeepsButtons | derpinotify/js/background.js:441-448 | closing a notification forgets only its slot; its timer and button map stay, so a later click still dispatches |
| EngineProps.ClickAfterNotify | derpinotify/js/background.js:630-641 | a click on a button of the notification just shown opens that button's page and then clears the notification |
| EngineProps.ClickWithoutMapThrows | derpinotify/js/background.js:630-633 | a click on an id without a button map throws before anything is done |
| Ext.Extension.constructor | derpinotify/js/background.js:269-286 | counts are 0, the extension's own id has indexes −1/−1, the auto theme is `default`, and there are no timer slots |
| Ext.Extension.SetNotifTimeout | derpinotify/js/background.js:470-474 | a clearing timer of `notifTimeout` is started and the id's slot names it, over whatever the slot held |
| Ext.Extension.ClearNotifTimeout | derpinotify/js/background.js:476-481 | the id's pending timer, if any, is cancelled and its slot forgotten |
| Ext.Extension.ClearNotif | derpinotify/js/background.js:441-448 | the notification is closed and only its slot is forgotten |
| Ext.Extension.FireTimer | derpinotify/js/background.js:471-473 | a clearing timer is used up and closes its notification; the poll timer keeps running |
| Ext.Extension.BuildNotifParams | derpinotify/js/background.js:382-429 | the parameters are the notification for the counts, and only the id's button map changes |
| Ext.Extension.AppendButtonLines | derpinotify/js/background.js:421-426 | Firefox's message is the header followed by one line per button, in order |
| Ext.Extension.CreateNotif | derpinotify/js/background.js:431-439 | shows the notification, then schedules its clearing unless it persists |
| Ext.Extension.PlayNotifSound | derpinotify/js/background.js:493-496 | the sound plays and nothing else changes |
| Ext.Extension.NotifyUser | derpinotify/js/background.js:369-380 | the new state is `notifyUser`'s step, and the timer invariant holds |
| Ext.Extension.SetBadgeText | derpinotify/js/background.js:353-367 | the new state is the badge step, whose notify decision `EngineProps.BadgeNotifiesIff` characterises |
| Ext.Extension.SetNotifs | derpinotify/js/background.js:288-291 | the notifications count becomes the parsed text (empty counts as 0), then the badge is updated |
| Ext.Extension.SetMessages | derpinotify/js/background.js:293-296 | the messages count becomes the parsed text (empty counts as 0), then the badge is updated |
| Ext.Extension.SetBadgeSignedOut | derpinotify/js/background.js:450-453 | the badge turns `#222` and shows `?` |
| Ext.Extension.SetBadgeSignedIn | derpinotify/js/background.js:455-459 | the badge takes the configured colour, if it is truthy |
| Ext.Extension.SetBadgeColor | derpinotify/js/background.js:461-468 | the badge is repainted unless it shows `?` |
| EngineProps.BadgeColorRepaint | derpinotify/js/background.js:455-468 | a colour change never alters the text; it has an effect exactly when the badge is not `?` and the colour is truthy, and the effect is one background request in that colour |
| EngineProps.SignedOutIgnoresColor | derpinotify/js/background.js:450-468 | after signing out the badge reads `?`, and a later colour change leaves everything as it is |
| Ext.Extension.RestartUpdateInterval | derpinotify/js/background.js:483-487 | the old poll timer is cancelled and a new one is started with `updateInterval` |
| Ext.Extension.SetAutoTheme | derpinotify/js/background.js:310-312 | the auto theme becomes the attribute's text before the first dash; an absent attribute throws and changes nothing |
| Ext.Extension.GetTheme | derpinotify/js/background.js:342-351 | the theme setting unless it is `auto`; then the auto theme. It fails exactly when the setting is `auto` and the auto theme is empty |
| Background.Failures | derpinotify/js/background.js:567 | a result is kept exactly when it is a failure, and there are no more kept than given |
| Background.FailuresNext | derpinotify/js/background.js:567 | filtering keeps the order: one more result appends that result exactly when it failed |
| Background.FiledForIsFiled | derpinotify/js/background.js:567-572 | filing the failures of a batch's results is filing refused keys one by one in key order |
| Background.FiledForRefused | derpinotify/js/background.js:567-575 | every filed key is a refused setting of the batch, filed with its own messages |
| Background.FiledForCovers | derpinotify/js/background.js:567-575 | every refused setting of the batch is filed |
| Background.NoFailuresAt | derpinotify/js/background.js:567-568 | there are no failures exactly when every setting is accepted |
| Background.ReplyMeaning | derpinotify/js/background.js:563-583 | the answer is `{ status: true }` exactly when every setting is accepted. Otherwise the errors hold exactly the refused settings, each with its own messages |
| Background.UpdateOptions | derpinotify/js/background.js:563-583 | the answer is the reply for the batch's results and the state is the batch's. The settings are saved once, plus once more when everything was accepted |
| Background.FileErrors | derpinotify/js/background.js:569-575 | a new `ErrorCollection`, given every failure in order, files exactly `Filed(failed)` |
| Background.CreateTab | derpinotify/js/background.js:540-552 | one page is opened, in the current window or a new one |
| Background.ClearNotification | derpinotify/js/background.js:640 | the notification is closed without touching the extension's slots |
| Background.OnButtonClicked | derpinotify/js/background.js:630-641 | with a button map for the id, the button's page opens (if the index matches) and the notification is cleared. Without one the listener throws and nothing happens |
| Background.OnClicked | derpinotify/js/background.js:643-647 | on Firefox a click on the notification's body closes it |

## Left out

- Fetching and scraping the site (`checkSiteData`, `request`, `parseHtml`) are not modelled. They are network and DOM I/O; their results enter the model as the counts given to `setNotifs` and `setMessages` and the attribute given to `setAutoTheme`.
- `setSignedIn`, `setUsername`, `setLastCheck`, `getPopupData`, `getOptionsData` and `Options.getAll` are not modelled: they only copy values for the popup and options pages. Only the badge steps that `setSignedIn` chooses between are modelled.
- The router actions other than `updateOptions` (`openSignInPage`, `getSelectors`, `onSiteUpdate`, `testMessage`, `getPopupData`, `getOptionsData`, `openNotifsPage`, `openMessagesPage`, and the unknown-action throw) are not modelled as listeners. Their bodies call operations that are modelled.
- Numbers are unbounded integers written in plain decimal. Fractional values, `Infinity` (for which the `isFinite` test exists), the loss of precision above 2^53, the exponent form `String` uses from 10^21 up, and timer delays are not represented; a timer records the setting it was started with, not a delay.
- Decimal.ParseIntOfDecimal: holds in JavaScript only for magnitudes below 10^21 (and exactly only below 2^53), because `String` writes larger numbers as `1e+21` and `parseInt` reads that as 1.
- JsValues.ParseIntValueOfNumber: holds in JavaScript only for magnitudes below 10^21, for the same reason.
- Settings.StoredRevalidates: holds in JavaScript only for stored integers below 10^21. An interval typed as `1000000000000000000000` is stored as 1e21, saved as `1e+21`, and refused on reload because `parseInt` reads 1.
- Objects are kept in insertion order. JavaScript lists integer-like keys (such as `"5"`) first and in ascending order, for `JSON.parse`, `$.extend` and `$.each` alike, so "key order" in the batch lemmas is JavaScript's order only for keys that are not integer-like. All setting names are of that kind.
- Callbacks and promises (`getBadgeText`, `notifications.create`, `checkDomainPermissions`, `Promise.all`, the `notifications.clear` callback of `clearNotif`, the `windows.getCurrent` callback of `createTab`) are taken to complete in call order, each as one step. Interleavings between them are not modelled.
- Ext.Extension.ClearNotif: the slot is forgotten at the call, whereas the browser runs the `notifications.clear` callback that deletes it only after the current task. In a batch that turns `notifEnabled` off and then sets a non-zero `notifTimeout` (the order the options page sends them in), the program ends with no slot for the notification id, because the late callback deletes the slot `setNotifTimeout` has just written; the model keeps that slot, naming the new timer. `loadUserOptions` differs in the same way for a stored snapshot holding those two values, since it settles the merged object as one batch.
- Background.CreateTab: the tab opens in the `windows.getCurrent` callback, so in `onButtonClicked` it opens after the direct `notifications.clear`; the model logs `OpenTab` before `ClearNotif`. Only the order of those two effects differs.
- `checkDomainPermissions` is the set of permitted domains; which domains are granted is not modelled.
- Saving is a snapshot plus a save counter. The JSON text and `localStorage` are not modelled; a stored snapshot that is not a JSON object is not modelled either.
- Setting values are primitives (undefined, null, booleans, numbers, strings). Arrays and objects as values are not modelled; JavaScript would, for instance, accept a stored `{"updateInterval": [45]}`, because `parseInt([45])` is 45.
- The sound is an effect in the log. The audio element is not modelled.
- `VALID_DOMAINS` is a parameter. Reading it from the manifest is not modelled.
- `Extension` methods take the settings as a value map (`SCOPE.prefs` or the `testMessage` options). The `Options` instance reaching the extension through a global is not modelled.
- Background.UpdateOptions: the errors are answered as a map, without the order of its keys.
- Prefs.ErrorCollection.Add: keys are plain strings. Keys that name properties inherited by every JavaScript object (such as `constructor`) are not modelled.
- Strings are sequences of characters with no UTF-16 surrogate handling; the icon characters used on Firefox are treated as plain text.
- The poll timer's callback (`checkSiteData`) does nothing in the model beyond staying live.
