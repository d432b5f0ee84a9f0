/** The settings of the extension: the rule `setSetting` applies to each key,
    the defaults, the merge `loadUserOptions` makes of defaults and the stored
    snapshot, and the effect of a whole batch of settings as `processOptions`
    applies it. */
module Settings {
  import opened Decimal
  import opened JsValues
  import opened JsStrings
  import opened Color
  import opened Engine
  import opened EngineProps
  import opened Objects

  const ValidThemes: seq<string> := ["default", "dark", "red", "auto"]
  const BellStyles: seq<string> := ["black", "white"]
  const EnvelopeStyles: seq<string> := ["orange", "black", "white"]

  /** Why `setSetting` rejects a value. */
  datatype SettingError =
    | BadColorType
    | BadColorFormat
    | ColorTooBright
    | BadDomain
    | NoDomainPermission
    | BadTheme
    | IntervalNotNumber
    | IntervalTooShort
    | BadNotifEnabled
    | BadNotifSound
    | BadNotifIcons
    | BadBellStyle
    | BadEnvelopeStyle
    | TimeoutNotNumber
    | TimeoutNegative
    | MissingHandler(name: string)

  /** The message `setSetting` rejects a value with. */
  function Text(e: SettingError): string {
    match e
    case BadColorType => "Badge color type is invalid"
    case BadColorFormat => "Badge color format is invalid (must be #RRGGBB)"
    case ColorTooBright => "Badge color is too bright, the number would not be readable"
    case BadDomain => "The domain is invalid"
    case NoDomainPermission => "The extension does not have permission to use the selected domain"
    case BadTheme => "The theme is invalid"
    case IntervalNotNumber => "The update interval must be a number"
    case IntervalTooShort => "The update interval must be greater than or equal to 30 seconds"
    case BadNotifEnabled => "Invalid value for notification enable/disable toggle"
    case BadNotifSound => "Invalid value for notification sound on/off toggle"
    case BadNotifIcons => "Invalid value for notification button icons on/off toggle"
    case BadBellStyle => "The bell icon style is invalid"
    case BadEnvelopeStyle => "The envelope icon style is invalid"
    case TimeoutNotNumber => "The notification timeout must be a number"
    case TimeoutNegative => "The notification timeout must be greater than or equal to 0 seconds"
    case MissingHandler(name) => "Missing handler for setting " + name
  }

  /** The settings `setSetting` has a rule for. */
  datatype Key = BadgeColor | PreferredDomain | Theme | UpdateInterval | NotifEnabled
               | NotifSound | NotifIcons | BellIconStyle | EnvelopeIconStyle | NotifTimeout

  function KeyName(k: Key): string {
    match k
    case BadgeColor => BadgeColorName
    case PreferredDomain => PreferredDomainName
    case Theme => ThemeName
    case UpdateInterval => UpdateIntervalName
    case NotifEnabled => NotifEnabledName
    case NotifSound => NotifSoundName
    case NotifIcons => NotifIconsName
    case BellIconStyle => BellIconStyleName
    case EnvelopeIconStyle => EnvelopeIconStyleName
    case NotifTimeout => NotifTimeoutName
  }

  /** The rule the `switch` of `setSetting` selects for a setting name. */
  function KeyOf(name: string): (r: Option<Key>)
    ensures r.Some? ==> KeyName(r.value) == name
  {
    if name == BadgeColorName then Some(BadgeColor)
    else if name == PreferredDomainName then Some(PreferredDomain)
    else if name == ThemeName then Some(Theme)
    else if name == UpdateIntervalName then Some(UpdateInterval)
    else if name == NotifEnabledName then Some(NotifEnabled)
    else if name == NotifSoundName then Some(NotifSound)
    else if name == NotifIconsName then Some(NotifIcons)
    else if name == BellIconStyleName then Some(BellIconStyle)
    else if name == EnvelopeIconStyleName then Some(EnvelopeIconStyle)
    else if name == NotifTimeoutName then Some(NotifTimeout)
    else None
  }

  /** Every setting is found under its own name, so no two share a name. */
  lemma KeyOfName(k: Key)
    ensures KeyOf(KeyName(k)) == Some(k)
  {
  }

  /** The outcome of `setSetting(name, value)`: the value written to
      `_values[name]`, or the errors the promise is rejected with. */
  datatype SettingOutcome = Accepted(stored: JsValue) | Rejected(errors: seq<SettingError>)

  predicate InList(v: JsValue, list: seq<string>) {
    v.Str? && v.s in list
  }

  /** A badge colour: a string in `#RRGGBB` form whose `yiq` brightness is
      at most 180. */
  function Colour(value: JsValue): SettingOutcome {
    if !value.Str? then Rejected([BadColorType])
    else if !IsColorCode(value.s) then Rejected([BadColorFormat])
    else
      var rgb := Channels(value.s);
      if Yiq(rgb.r, rgb.g, rgb.b) > 180.0 then Rejected([ColorTooBright])
      else Accepted(value)
  }

  function Member(value: JsValue, list: seq<string>, message: SettingError): SettingOutcome {
    if InList(value, list) then Accepted(value) else Rejected([message])
  }

  function Toggle(value: JsValue, message: SettingError): SettingOutcome {
    if value.Bool? then Accepted(value) else Rejected([message])
  }

  /** A setting read with `parseInt(value, 10)`: stored as the parsed integer
      when it is a number no smaller than `min`. */
  function Integer(value: JsValue, min: int, notNumber: SettingError, tooSmall: SettingError): SettingOutcome {
    match ParseIntValue(value)
    case NaN => Rejected([notNumber])
    case Int(n) => if n < min then Rejected([tooSmall]) else Accepted(Number(n))
  }

  /** Whether `setSetting(name, value)` asks `checkDomainPermissions`: only
      for a listed domain. */
  predicate ConsultsPermission(name: string, value: JsValue, validDomains: seq<string>) {
    name == PreferredDomainName && InList(value, validDomains)
  }

  /** Whether a setting is kept as the integer `parseInt` reads from it. */
  predicate IsInteger(k: Key) {
    k == UpdateInterval || k == NotifTimeout
  }

  /** The rule of one setting; `permitted` holds the domains whose permission
      check resolves. */
  function Check(k: Key, value: JsValue, validDomains: seq<string>, permitted: set<string>): (r: SettingOutcome)
    ensures r.Rejected? ==> |r.errors| == 1
  {
    match k
    case BadgeColor => Colour(value)
    case PreferredDomain =>
      if !InList(value, validDomains) then Rejected([BadDomain])
      else if value.s !in permitted then Rejected([NoDomainPermission])
      else Accepted(value)
    case Theme => Member(value, ValidThemes, BadTheme)
    case UpdateInterval =>
      Integer(value, 30, IntervalNotNumber,
              IntervalTooShort)
    case NotifEnabled => Toggle(value, BadNotifEnabled)
    case NotifSound => Toggle(value, BadNotifSound)
    case NotifIcons => Toggle(value, BadNotifIcons)
    case BellIconStyle => Member(value, BellStyles, BadBellStyle)
    case EnvelopeIconStyle => Member(value, EnvelopeStyles, BadEnvelopeStyle)
    case NotifTimeout =>
      Integer(value, 0, TimeoutNotNumber,
              TimeoutNegative)
  }

  /** A badge colour is accepted when it is a `#RRGGBB` string dark enough
      for the badge number to stay readable. */
  lemma ColorRule(value: JsValue, validDomains: seq<string>, permitted: set<string>)
    ensures Check(BadgeColor, value, validDomains, permitted).Accepted? <==>
      value.Str? && IsColorCode(value.s) && Readable(Channels(value.s))
  {
  }

  /** A domain is accepted when the manifest lists it and its permission
      check resolves. */
  lemma DomainRule(value: JsValue, validDomains: seq<string>, permitted: set<string>)
    ensures Check(PreferredDomain, value, validDomains, permitted).Accepted? <==>
      InList(value, validDomains) && value.s in permitted
  {
  }

  /** The theme and the icon styles accept one of their listed names. */
  lemma ListRules(value: JsValue, validDomains: seq<string>, permitted: set<string>)
    ensures Check(Theme, value, validDomains, permitted).Accepted? <==> InList(value, ValidThemes)
    ensures Check(BellIconStyle, value, validDomains, permitted).Accepted? <==> InList(value, BellStyles)
    ensures Check(EnvelopeIconStyle, value, validDomains, permitted).Accepted? <==> InList(value, EnvelopeStyles)
  {
  }

  /** The three on/off settings accept booleans only. */
  lemma ToggleRules(k: Key, value: JsValue, validDomains: seq<string>, permitted: set<string>)
    requires k == NotifEnabled || k == NotifSound || k == NotifIcons
    ensures Check(k, value, validDomains, permitted).Accepted? <==> value.Bool?
  {
  }

  /** The interval needs a number of at least 30 seconds, the timeout one of
      at least 0; either is stored as the number `parseInt` reads. */
  lemma IntegerRules(k: Key, value: JsValue, validDomains: seq<string>, permitted: set<string>)
    requires IsInteger(k)
    ensures var r, n := Check(k, value, validDomains, permitted), ParseIntValue(value);
      && (r.Accepted? <==> n.Int? && n.i >= (if k == UpdateInterval then 30 else 0))
      && (r.Accepted? ==> r.stored == Number(n.i))
  {
  }

  /** Every other setting is stored as given. */
  lemma StoredAsGiven(k: Key, value: JsValue, validDomains: seq<string>, permitted: set<string>)
    requires !IsInteger(k) && Check(k, value, validDomains, permitted).Accepted?
    ensures Check(k, value, validDomains, permitted).stored == value
  {
  }

  /** `setSetting(name, value)`: the rule of the named setting, or a single
      "missing handler" error for a name without one. */
  function Validate(name: string, value: JsValue, validDomains: seq<string>, permitted: set<string>): (r: SettingOutcome)
    ensures r.Rejected? ==> |r.errors| == 1
    ensures r.Accepted? ==> KeyOf(name).Some?
    ensures KeyOf(name).None? ==> r.errors == [MissingHandler(name)]
  {
    match KeyOf(name)
    case None => Rejected([MissingHandler(name)])
    case Some(k) => Check(k, value, validDomains, permitted)
  }

  /** The permission oracle only matters for a listed domain: any other value
      is decided without asking. */
  lemma PermissionOnlyForListedDomain(name: string, value: JsValue, validDomains: seq<string>, p1: set<string>, p2: set<string>)
    requires !ConsultsPermission(name, value, validDomains)
    ensures Validate(name, value, validDomains, p1) == Validate(name, value, validDomains, p2)
  {
  }

  /** A value `setSetting` stored passes `setSetting` again and is stored
      unchanged: a saved snapshot reloads as it was saved. */
  lemma StoredRevalidates(name: string, value: JsValue, validDomains: seq<string>, permitted: set<string>)
    requires Validate(name, value, validDomains, permitted).Accepted?
    ensures var stored := Validate(name, value, validDomains, permitted).stored;
      Validate(name, stored, validDomains, permitted) == Accepted(stored)
  {
    var k := KeyOf(name).value;
    if IsInteger(k) {
      IntegerRules(k, value, validDomains, permitted);
      ParseIntValueOfNumber(ParseIntValue(value).i);
      IntegerRules(k, Number(ParseIntValue(value).i), validDomains, permitted);
    } else {
      StoredAsGiven(k, value, validDomains, permitted);
    }
  }

  /** `parseInt` reads the decimal number, with its sign, at the head of a text. */
  lemma IntegerOfText(n: int, rest: string, min: int, notNumber: SettingError, tooSmall: SettingError)
    requires rest == [] || !IsDigit(rest[0])
    ensures Integer(Str(IntToString(n) + rest), min, notNumber, tooSmall) ==
      if n >= min then Accepted(Number(n)) else Rejected([tooSmall])
  {
    var text := IntToString(n) + rest;
    ParseIntOfDecimalPrefix(n, rest);
    ParseIntValueOfText(text);
  }

  /** The options page sends numbers as text: `parseInt` reads the leading
      decimal number and ignores what follows it (a unit, say), and the
      number is then held against the setting's minimum, each setting
      refusing a smaller one with its own message. */
  lemma IntegerFromText(k: Key, n: int, rest: string, validDomains: seq<string>, permitted: set<string>)
    requires IsInteger(k)
    requires rest == [] || !IsDigit(rest[0])
    ensures var r, min := Check(k, Str(IntToString(n) + rest), validDomains, permitted), if k == UpdateInterval then 30 else 0;
      && (n >= min ==> r == Accepted(Number(n)))
      && (n < min ==> r == Rejected([if k == UpdateInterval then IntervalTooShort else TimeoutNegative]))
  {
    if k == UpdateInterval {
      IntegerOfText(n, rest, 30, IntervalNotNumber, IntervalTooShort);
    } else {
      IntegerOfText(n, rest, 0, TimeoutNotNumber, TimeoutNegative);
    }
  }

  // ---------------------------------------------------------------------
  // Defaults and loading
  // ---------------------------------------------------------------------

  /** The first listed domain, or undefined when the manifest lists none. */
  function FirstDomain(validDomains: seq<string>): JsValue {
    if |validDomains| > 0 then Str(validDomains[0]) else Undefined
  }

  /** The value `DEFAULT_OPTIONS` gives a setting. */
  function DefaultValue(k: Key, validDomains: seq<string>): JsValue {
    match k
    case BadgeColor => Str("#618fc3")
    case PreferredDomain => FirstDomain(validDomains)
    case Theme => Str("auto")
    case UpdateInterval => Number(60)
    case NotifEnabled => Bool(true)
    case NotifSound => Bool(true)
    case NotifTimeout => Number(0)
    case NotifIcons => Bool(true)
    case BellIconStyle => Str(BellStyles[0])
    case EnvelopeIconStyle => Str(EnvelopeStyles[0])
  }

  /** The order of the keys in the `DEFAULT_OPTIONS` literal. */
  const DefaultOrder: seq<Key> :=
    [BadgeColor, PreferredDomain, Theme, UpdateInterval, NotifEnabled,
     NotifSound, NotifTimeout, NotifIcons, BellIconStyle, EnvelopeIconStyle]

  /** Where a setting stands in `DEFAULT_OPTIONS`: every setting has a default. */
  function OrderOf(k: Key): (i: nat)
    ensures i < |DefaultOrder| && DefaultOrder[i] == k
  {
    match k
    case BadgeColor => 0
    case PreferredDomain => 1
    case Theme => 2
    case UpdateInterval => 3
    case NotifEnabled => 4
    case NotifSound => 5
    case NotifTimeout => 6
    case NotifIcons => 7
    case BellIconStyle => 8
    case EnvelopeIconStyle => 9
  }

  function DefaultNames(): (names: seq<string>)
    ensures |names| == |DefaultOrder|
    ensures forall i :: 0 <= i < |names| ==> names[i] == KeyName(DefaultOrder[i])
  {
    seq(|DefaultOrder|, i requires 0 <= i < |DefaultOrder| => KeyName(DefaultOrder[i]))
  }

  /** `DEFAULT_OPTIONS`. */
  function Defaults(validDomains: seq<string>): Obj {
    Obj(DefaultNames(),
        map n | n in DefaultNames() && KeyOf(n).Some? :: DefaultValue(KeyOf(n).value, validDomains))
  }

  /** The defaults hold every setting once, under its own name. */
  lemma DefaultsWellFormed(validDomains: seq<string>)
    ensures WellFormed(Defaults(validDomains))
    ensures forall k: Key :: KeyName(k) in Defaults(validDomains).vals
    ensures forall n :: n in Defaults(validDomains).vals ==>
      KeyOf(n).Some? && Defaults(validDomains).vals[n] == DefaultValue(KeyOf(n).value, validDomains)
  {
    var names := DefaultNames();
    forall i | 0 <= i < |names|
      ensures KeyOf(names[i]) == Some(DefaultOrder[i])
    {
      KeyOfName(DefaultOrder[i]);
    }
    forall k: Key
      ensures KeyName(k) in names
    {
      var i := OrderOf(k);
      assert names[i] == KeyName(k);
    }
  }

  /** Each default passes its own rule when the first listed domain is permitted. */
  lemma {:induction false} DefaultAccepted(k: Key, validDomains: seq<string>, permitted: set<string>)
    requires |validDomains| > 0 && validDomains[0] in permitted
    ensures Check(k, DefaultValue(k, validDomains), validDomains, permitted) == Accepted(DefaultValue(k, validDomains))
  {
    match k
    case BadgeColor => DefaultColorReadable();
    case UpdateInterval => ParseIntValueOfNumber(60);
    case NotifTimeout => ParseIntValueOfNumber(0);
    case _ =>
  }

  lemma DefaultColorReadable()
    ensures IsColorCode("#618fc3") && Readable(Channels("#618fc3"))
  {
    var s := "#618fc3";
    assert s[1..] == "618fc3";
    assert forall i :: 0 <= i < 6 ==> IsHexDigit(s[1..][i]);
    var c := Channels(s);
    assert c == Rgb(0x61, 0x8f, 0xc3);
  }

  /** The settings `loadUserOptions` applies: the defaults overridden by the
      parsed snapshot, or the defaults alone when there is none. */
  function LoadedOptions(parsed: Option<Obj>, validDomains: seq<string>): Obj
    requires parsed.Some? ==> WellFormed(parsed.value)
  {
    DefaultsWellFormed(validDomains);
    if parsed.Some? then Extend(Extend(EmptyObj, Defaults(validDomains)), parsed.value)
    else Defaults(validDomains)
  }

  /** Copying the defaults into an empty object keeps the defined ones. */
  lemma DefaultsCopied(validDomains: seq<string>)
    ensures WellFormed(Defaults(validDomains))
    ensures var d, e := Defaults(validDomains), Extend(EmptyObj, Defaults(validDomains));
      && WellFormed(e)
      && (forall n :: n in e.vals <==> n in d.vals && d.vals[n] != Undefined)
      && (forall n :: n in e.vals ==> e.vals[n] == d.vals[n])
  {
    DefaultsWellFormed(validDomains);
    assert WellFormed(EmptyObj);
    ExtendOverrides(EmptyObj, Defaults(validDomains));
  }

  /** Parsed values win over the defaults, every other setting keeps its
      default, and nothing else appears. */
  lemma LoadedOptionsMerge(parsed: Obj, validDomains: seq<string>)
    requires WellFormed(parsed)
    ensures var r := LoadedOptions(Some(parsed), validDomains);
      && WellFormed(r)
      && (forall n :: n in parsed.vals && parsed.vals[n] != Undefined ==> n in r.vals && r.vals[n] == parsed.vals[n])
      && (forall k: Key :: (KeyName(k) !in parsed.vals || parsed.vals[KeyName(k)] == Undefined) &&
                           DefaultValue(k, validDomains) != Undefined ==>
            KeyName(k) in r.vals && r.vals[KeyName(k)] == DefaultValue(k, validDomains))
      && (forall n :: n in r.vals ==> n in parsed.vals || KeyOf(n).Some?)
  {
    DefaultsWellFormed(validDomains);
    DefaultsCopied(validDomains);
    var d := Defaults(validDomains);
    var e := Extend(EmptyObj, d);
    ExtendOverrides(e, parsed);
    var r := Extend(e, parsed);
    assert r == LoadedOptions(Some(parsed), validDomains);
    forall k: Key | (KeyName(k) !in parsed.vals || parsed.vals[KeyName(k)] == Undefined) &&
                    DefaultValue(k, validDomains) != Undefined
      ensures KeyName(k) in r.vals && r.vals[KeyName(k)] == DefaultValue(k, validDomains)
    {
      KeyOfName(k);
      assert KeyName(k) in d.vals;
    }
  }

  /** With no snapshot every setting is loaded with its default, and every
      default passes its rule when the first listed domain is permitted. */
  lemma DefaultsLoadClean(validDomains: seq<string>, permitted: set<string>)
    requires |validDomains| > 0 && validDomains[0] in permitted
    ensures var o := LoadedOptions(None, validDomains);
      forall n :: n in o.vals ==> Validate(n, o.vals[n], validDomains, permitted) == Accepted(o.vals[n])
  {
    DefaultsWellFormed(validDomains);
    forall k: Key
      ensures Check(k, DefaultValue(k, validDomains), validDomains, permitted) == Accepted(DefaultValue(k, validDomains))
    {
      DefaultAccepted(k, validDomains, permitted);
    }
  }
}
