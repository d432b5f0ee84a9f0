/** The two stateful helpers of the settings: `ErrorCollection`, which gathers
    the messages of the settings that failed, and `Options`, which holds the
    current settings, checks and applies new ones, and keeps a saved copy. */
module Prefs {
  import opened JsValues
  import opened Engine
  import opened EngineProps
  import opened Ext
  import opened Color
  import opened Objects
  import opened Settings
  import opened Batch

  // ---------------------------------------------------------------------
  // ErrorCollection
  // ---------------------------------------------------------------------

  /** What `add` is given: one message, or an array of them. */
  datatype Message = One(text: string) | Many(texts: seq<string>)

  function Texts(m: Message): (ts: seq<string>)
    ensures m.One? ==> ts == [m.text]
    ensures m.Many? ==> ts == m.texts
  {
    match m
    case One(t) => [t]
    case Many(ts) => ts
  }

  /** The number of messages filed under `keys`. */
  function MessageCount(keys: seq<string>, collection: map<string, seq<string>>): nat
    requires forall i :: 0 <= i < |keys| ==> keys[i] in collection
  {
    if |keys| == 0 then 0
    else MessageCount(keys[..|keys| - 1], collection) + |collection[keys[|keys| - 1]]|
  }

  /** Changing the messages of a key outside `keys` leaves their total alone. */
  lemma {:induction false} TotalFrame(keys: seq<string>, collection: map<string, seq<string>>, k: string, ts: seq<string>)
    requires forall i :: 0 <= i < |keys| ==> keys[i] in collection
    requires k !in keys
    ensures MessageCount(keys, collection[k := ts]) == MessageCount(keys, collection)
  {
    if |keys| > 0 {
      TotalFrame(keys[..|keys| - 1], collection, k, ts);
    }
  }

  /** Adding messages to one of the distinct `keys` adds their number to the total. */
  lemma {:induction false} TotalGrow(keys: seq<string>, collection: map<string, seq<string>>, k: string, ts: seq<string>)
    requires forall i :: 0 <= i < |keys| ==> keys[i] in collection
    requires forall i, j :: 0 <= i < j < |keys| ==> keys[i] != keys[j]
    requires k in keys
    ensures MessageCount(keys, collection[k := collection[k] + ts]) == MessageCount(keys, collection) + |ts|
  {
    var n := |keys|;
    var front := keys[..n - 1];
    if keys[n - 1] == k {
      assert k !in front;
      TotalFrame(front, collection, k, collection[k] + ts);
    } else {
      assert k in front by {
        var i :| 0 <= i < n && keys[i] == k;
        assert front[i] == k;
      }
      TotalGrow(front, collection, k, ts);
    }
  }

  /** The total is positive exactly when some key holds a message. */
  lemma {:induction false} TotalPositive(keys: seq<string>, collection: map<string, seq<string>>)
    requires forall i :: 0 <= i < |keys| ==> keys[i] in collection
    ensures MessageCount(keys, collection) > 0 <==> exists i :: 0 <= i < |keys| && |collection[keys[i]]| > 0
  {
    if |keys| > 0 {
      var front := keys[..|keys| - 1];
      TotalPositive(front, collection);
      if exists i :: 0 <= i < |front| && |collection[front[i]]| > 0 {
        var i :| 0 <= i < |front| && |collection[front[i]]| > 0;
        assert keys[i] == front[i];
      }
      if exists i :: 0 <= i < |keys| && |collection[keys[i]]| > 0 {
        var i :| 0 <= i < |keys| && |collection[keys[i]]| > 0;
        if i < |keys| - 1 {
          assert front[i] == keys[i];
        }
      }
    }
  }

  /** Whether `keys` lists the keys of `collection`, each once. */
  ghost predicate Indexed(keys: seq<string>, collection: map<string, seq<string>>) {
    && (forall i, j :: 0 <= i < j < |keys| ==> keys[i] != keys[j])
    && (forall k :: k in collection ==> k in keys)
    && (forall i :: 0 <= i < |keys| ==> keys[i] in collection)
  }

  /** Filing messages under a key keeps the keys indexed and adds their
      number to the count. */
  lemma AddKeepsCount(keys: seq<string>, collection: map<string, seq<string>>, key: string, ts: seq<string>,
                      keys': seq<string>, collection': map<string, seq<string>>)
    requires Indexed(keys, collection)
    requires keys' == if key in collection then keys else keys + [key]
    requires collection' == collection[key := (if key in collection then collection[key] else []) + ts]
    ensures Indexed(keys', collection')
    ensures MessageCount(keys', collection') == MessageCount(keys, collection) + |ts|
  {
    AddKeepsIndex(keys, collection, key, ts, keys', collection');
    if key in collection {
      TotalGrow(keys, collection, key, ts);
    } else {
      assert [] + ts == ts;
      assert collection' == collection[key := ts];
      assert keys' == keys + [key];
      NewKeyGrow(keys, collection, key, ts);
    }
  }

  lemma NewKeyGrow(keys: seq<string>, collection: map<string, seq<string>>, key: string, ts: seq<string>)
    requires Indexed(keys, collection) && key !in collection
    ensures MessageCount(keys + [key], collection[key := ts]) == MessageCount(keys, collection) + |ts|
  {
    var prior := collection[key := []];
    NewKeyCount(keys, collection, key);
    assert prior[key] + ts == ts;
    assert collection[key := ts] == prior[key := prior[key] + ts];
    TotalGrow(keys + [key], prior, key, ts);
  }

  lemma NewKeyCount(keys: seq<string>, collection: map<string, seq<string>>, key: string)
    requires Indexed(keys, collection) && key !in collection
    ensures Indexed(keys + [key], collection[key := []])
    ensures MessageCount(keys + [key], collection[key := []]) == MessageCount(keys, collection)
  {
    assert key !in keys;
    TotalFrame(keys, collection, key, []);
    var keys' := keys + [key];
    assert keys'[..|keys'| - 1] == keys;
  }

  lemma AddKeepsIndex(keys: seq<string>, collection: map<string, seq<string>>, key: string, ts: seq<string>,
                      keys': seq<string>, collection': map<string, seq<string>>)
    requires Indexed(keys, collection)
    requires keys' == if key in collection then keys else keys + [key]
    requires collection' == collection[key := (if key in collection then collection[key] else []) + ts]
    ensures Indexed(keys', collection')
  {
    if key !in collection {
      assert key !in keys;
      assert forall i :: 0 <= i < |keys| ==> keys'[i] == keys[i];
    }
  }

  class ErrorCollection {
    /** `_collection`: the messages filed under each key. */
    var collection: map<string, seq<string>>
    /** The keys of `_collection` in the order they were first added. */
    var keys: seq<string>
    /** `count`: the number of messages added. */
    var count: nat

    ghost predicate Valid()
      reads this
    {
      Indexed(keys, collection) && count == MessageCount(keys, collection)
    }

    constructor ()
      ensures collection == map[] && keys == [] && count == 0
      ensures Valid()
    {
      collection := map[];
      keys := [];
      count := 0;
    }

    /** `add(key, message)`: the messages go to the end of the key's list,
        a new key to the end of the keys, and the count grows by their number. */
    method Add(key: string, message: Message)
      requires Valid()
      modifies this
      ensures Valid()
      ensures collection ==
        old(collection)[key := (if key in old(collection) then old(collection)[key] else []) + Texts(message)]
      ensures keys == if key in old(collection) then old(keys) else old(keys) + [key]
      ensures count == old(count) + |Texts(message)|
    {
      ghost var keys0, collection0 := keys, collection;
      ghost var prior := if key in collection then collection[key] else [];
      if key !in collection {
        collection := collection[key := []];
        keys := keys + [key];
      }
      match message {
      case Many(texts) =>
        collection := collection[key := collection[key] + texts];
        count := count + |texts|;
      case One(text) =>
        collection := collection[key := collection[key] + [text]];
        count := count + 1;
      }
      assert collection == collection0[key := prior + Texts(message)];
      AddKeepsCount(keys0, collection0, key, Texts(message), keys, collection);
    }

    /** `any()`: whether some key holds a message. */
    function Any(): (r: bool)
      requires Valid()
      reads this
      ensures r <==> exists k :: k in collection && |collection[k]| > 0
    {
      TotalPositive(keys, collection);
      count > 0
    }
  }

  // ---------------------------------------------------------------------
  // Options
  // ---------------------------------------------------------------------

  class Options {
    /** The domains the manifest lists, `VALID_DOMAINS`. */
    const validDomains: seq<string>
    /** The extension `postSetting` reacts through. */
    const ext: Extension
    /** `_values`: the current settings. */
    var values: map<string, JsValue>
    /** The settings last written to storage under `options`. */
    var saved: Option<map<string, JsValue>>
    /** How many times the settings were written to storage. */
    var saves: nat
    /** The domains whose permission was asked for, in order. */
    ghost var permissionChecks: seq<string>

    ghost function State(): PrefsState
      reads this, ext
    {
      PrefsState(values, ext.Snapshot())
    }

    ghost predicate Valid()
      reads this, ext
    {
      ext.Valid()
    }

    /** `new Options(values)`, whose reactions go to `ext`. */
    constructor (ext: Extension, validDomains: seq<string>, values: map<string, JsValue>, saved: Option<map<string, JsValue>>)
      ensures this.ext == ext && this.validDomains == validDomains
      ensures this.values == values && this.saved == saved && saves == 0 && permissionChecks == []
    {
      this.ext := ext;
      this.validDomains := validDomains;
      this.values := values;
      this.saved := saved;
      saves := 0;
      permissionChecks := [];
    }

    /** `get(name)`: the current value, undefined for a setting never set. */
    function Get(name: string): (v: JsValue)
      reads this
      ensures name in values ==> v == values[name]
      ensures name !in values ==> v == Undefined
    {
      Prop(values, name)
    }

    /** `saveOptions()`: the current settings become the stored ones. */
    method SaveOptions()
      modifies this
      ensures saved == Some(values) && saves == old(saves) + 1
      ensures values == old(values) && permissionChecks == old(permissionChecks)
    {
      saved := Some(values);
      saves := saves + 1;
    }

    /** `postSetting(name, value)`: the extension reacts to a stored setting. */
    method PostSetting(name: string, value: JsValue)
      requires Valid()
      modifies ext
      ensures ext.Snapshot() == PostSettingStep(old(ext.Snapshot()), name, value, values, ext.Cfg())
      ensures Valid()
    {
      match KeyOf(name)
      case Some(BadgeColor) =>
        ext.SetBadgeColor(values);
      case Some(UpdateInterval) =>
        ext.RestartUpdateInterval(values);
      case Some(NotifEnabled) =>
        if value == Bool(false) {
          ext.ClearNotif(ext.notifId);
        }
      case Some(NotifTimeout) =>
        if value != Number(0) {
          InvSetNotifTimeout(ext.Snapshot(), values, ext.notifId);
          ext.SetNotifTimeout(values, ext.notifId);
        }
      case _ =>
    }

    /** `_resolveSetting(name, value)`: store the value and react to it. */
    method ResolveSetting(name: string, value: JsValue)
      requires Valid()
      modifies this, ext
      ensures values == old(values)[name := value]
      ensures ext.Snapshot() == PostSettingStep(old(ext.Snapshot()), name, value, values, ext.Cfg())
      ensures saved == old(saved) && saves == old(saves) && permissionChecks == old(permissionChecks)
      ensures Valid()
    {
      values := values[name := value];
      PostSetting(name, value);
    }

    /** `setSetting(name, value)`, settled: `permitted` holds the domains whose
        permission check resolves. The outcome is the rule of the setting, an
        accepted value is stored and reacted to, and the permission is asked
        for exactly when the value is a listed domain. */
    method SetSetting(name: string, value: JsValue, permitted: set<string>) returns (outcome: SettingOutcome)
      requires Valid()
      modifies this, ext
      ensures outcome == Validate(name, value, validDomains, permitted)
      ensures State() == SettleStep(old(State()), name, outcome, ext.Cfg())
      ensures outcome.Accepted? ==> Get(name) == outcome.stored
      ensures forall n :: n != name || outcome.Rejected? ==> Get(n) == old(Get(n))
      ensures permissionChecks ==
        old(permissionChecks) + if ConsultsPermission(name, value, validDomains) then [value.s] else []
      ensures saved == old(saved) && saves == old(saves)
      ensures Valid()
    {
      var errors, v, pending := CheckValue(name, value, validDomains);
      if pending {
        permissionChecks := permissionChecks + [value.s];
        if value.s in permitted {
          ResolveSetting(name, value);
          outcome := Accepted(value);
        } else {
          errors := [NoDomainPermission];
          outcome := Rejected(errors);
        }
        return;
      }
      PermissionOnlyForListedDomain(name, value, validDomains, {}, permitted);
      if |errors| > 0 {
        outcome := Rejected(errors);
        return;
      }
      ResolveSetting(name, v);
      outcome := Accepted(v);
    }

    /** The `switch` of `setSetting`: the errors found in `value` and the
        value to store, or `pending` when the verdict waits for the
        permission check of a listed domain. */
    static method CheckValue(name: string, value: JsValue, validDomains: seq<string>)
      returns (errors: seq<SettingError>, v: JsValue, pending: bool)
      ensures pending <==> ConsultsPermission(name, value, validDomains)
      ensures pending ==> errors == [] && v == value
      ensures !pending && errors == [] ==> Validate(name, value, validDomains, {}) == Accepted(v)
      ensures !pending && errors != [] ==> Validate(name, value, validDomains, {}) == Rejected(errors)
    {
      errors := [];
      v := value;
      pending := false;
      match KeyOf(name) {
      case Some(BadgeColor) =>
        errors := CheckColor(value);
      case Some(PreferredDomain) =>
        if !InList(value, validDomains) {
          errors := [BadDomain];
        } else {
          pending := true;
        }
      case Some(Theme) =>
        errors := CheckMember(value, ValidThemes, BadTheme);
      case Some(UpdateInterval) =>
        errors, v := CheckInteger(value, 30, IntervalNotNumber,
                                  IntervalTooShort);
      case Some(NotifEnabled) =>
        errors := CheckToggle(value, BadNotifEnabled);
      case Some(NotifSound) =>
        errors := CheckToggle(value, BadNotifSound);
      case Some(NotifIcons) =>
        errors := CheckToggle(value, BadNotifIcons);
      case Some(BellIconStyle) =>
        errors := CheckMember(value, BellStyles, BadBellStyle);
      case Some(EnvelopeIconStyle) =>
        errors := CheckMember(value, EnvelopeStyles, BadEnvelopeStyle);
      case Some(NotifTimeout) =>
        errors, v := CheckInteger(value, 0, TimeoutNotNumber,
                                  TimeoutNegative);
      case None =>
        errors := [MissingHandler(name)];
      }
    }

    /** The badge colour case: a string, in `#RRGGBB` form, dark enough. */
    static method CheckColor(value: JsValue) returns (errors: seq<SettingError>)
      ensures errors == [] ==> Colour(value) == Accepted(value)
      ensures errors != [] ==> Colour(value) == Rejected(errors)
    {
      errors := [];
      if !value.Str? {
        errors := [BadColorType];
      } else if !IsColorCode(value.s) {
        errors := [BadColorFormat];
      } else {
        var rgb := Channels(value.s);
        if Yiq(rgb.r, rgb.g, rgb.b) > 180.0 {
          errors := [ColorTooBright];
        }
      }
    }

    /** The cases that accept one string of a list. */
    static method CheckMember(value: JsValue, list: seq<string>, message: SettingError) returns (errors: seq<SettingError>)
      ensures errors == [] ==> Member(value, list, message) == Accepted(value)
      ensures errors != [] ==> Member(value, list, message) == Rejected(errors)
    {
      errors := [];
      if !value.Str? || value.s !in list {
        errors := [message];
      }
    }

    /** The on/off cases, which accept a boolean only. */
    static method CheckToggle(value: JsValue, message: SettingError) returns (errors: seq<SettingError>)
      ensures errors == [] ==> Toggle(value, message) == Accepted(value)
      ensures errors != [] ==> Toggle(value, message) == Rejected(errors)
    {
      errors := [];
      if !value.Bool? {
        errors := [message];
      }
    }

    /** The cases read with `parseInt(value, 10)`, which keep the number read. */
    static method CheckInteger(value: JsValue, min: int, notNumber: SettingError, tooSmall: SettingError)
      returns (errors: seq<SettingError>, v: JsValue)
      ensures errors == [] ==> Integer(value, min, notNumber, tooSmall) == Accepted(v)
      ensures errors != [] ==> Integer(value, min, notNumber, tooSmall) == Rejected(errors)
    {
      match ParseIntValue(value) {
        case NaN =>
          errors, v := [notNumber], value;
        case Int(n) =>
          if n < min {
            errors, v := [tooSmall], value;
          } else {
            errors, v := [], Number(n);
          }
      }
    }

    /** One turn of the loop of `processOptions`: `setSetting` on the `i`-th
        key, after the keys before it. */
    method SettleNext(setThese: Obj, i: nat, permitted: set<string>, ghost start: PrefsState) returns (result: KeyResult)
      requires Valid() && WellFormed(setThese) && i < |setThese.keys|
      requires State() == BatchStep(start, setThese, i, RuleOf(validDomains, permitted), ext.Cfg())
      modifies this, ext
      ensures var k := setThese.keys[i];
        result == ResultOf(k, RuleOf(validDomains, permitted)(k, setThese.vals[k]))
      ensures State() == BatchStep(start, setThese, i + 1, RuleOf(validDomains, permitted), ext.Cfg())
      ensures saved == old(saved) && saves == old(saves)
      ensures Valid()
    {
      var key := setThese.keys[i];
      var outcome := SetSetting(key, setThese.vals[key], permitted);
      BatchStepNext(start, setThese, i, RuleOf(validDomains, permitted), ext.Cfg());
      result := ResultOf(key, outcome);
    }

    /** The loop of `processOptions`: `setSetting` on every key in key
        order, collecting one result per key. */
    method SettleAll(setThese: Obj, permitted: set<string>) returns (results: seq<KeyResult>)
      requires Valid() && WellFormed(setThese)
      modifies this, ext
      ensures results == BatchResults(setThese, |setThese.keys|, RuleOf(validDomains, permitted))
      ensures State() == BatchStep(old(State()), setThese, |setThese.keys|, RuleOf(validDomains, permitted), ext.Cfg())
      ensures saved == old(saved) && saves == old(saves)
      ensures Valid()
    {
      results := [];
      ghost var start, rule, cfg := State(), RuleOf(validDomains, permitted), ext.Cfg();
      var i := 0;
      while i < |setThese.keys|
        invariant 0 <= i <= |setThese.keys|
        invariant results == BatchResults(setThese, i, rule)
        invariant State() == BatchStep(start, setThese, i, rule, cfg)
        invariant saved == old(saved) && saves == old(saves)
        invariant Valid()
      {
        var result := SettleNext(setThese, i, permitted, start);
        BatchResultsNext(setThese, i, rule);
        results := results + [result];
        i := i + 1;
      }
    }

    /** `processOptions(setThese)`, once every setting has settled: one
        result per key in key order, the settings applied in that order, then
        one save. */
    method ProcessOptions(setThese: Obj, permitted: set<string>) returns (results: seq<KeyResult>)
      requires Valid() && WellFormed(setThese)
      modifies this, ext
      ensures results == BatchResults(setThese, |setThese.keys|, RuleOf(validDomains, permitted))
      ensures State() == BatchStep(old(State()), setThese, |setThese.keys|, RuleOf(validDomains, permitted), ext.Cfg())
      ensures saved == Some(values) && saves == old(saves) + 1
      ensures Valid()
    {
      results := SettleAll(setThese, permitted);
      SaveOptions();
    }

    /** `loadUserOptions()`: `parsed` is what the stored `options` text parses
        to, if it parses to an object; its values override the defaults. */
    method LoadUserOptions(parsed: Option<Obj>, permitted: set<string>) returns (results: seq<KeyResult>)
      requires Valid()
      requires parsed.Some? ==> WellFormed(parsed.value)
      modifies this, ext
      ensures var o := LoadedOptions(parsed, validDomains);
        && WellFormed(o)
        && results == BatchResults(o, |o.keys|, RuleOf(validDomains, permitted))
        && State() == BatchStep(old(State()), o, |o.keys|, RuleOf(validDomains, permitted), ext.Cfg())
      ensures saved == Some(values) && saves == old(saves) + 1
      ensures Valid()
    {
      LoadedWellFormed(parsed, validDomains);
      results := ProcessOptions(LoadedOptions(parsed, validDomains), permitted);
    }
  }

  lemma LoadedWellFormed(parsed: Option<Obj>, validDomains: seq<string>)
    requires parsed.Some? ==> WellFormed(parsed.value)
    ensures WellFormed(LoadedOptions(parsed, validDomains))
  {
    DefaultsWellFormed(validDomains);
    if parsed.Some? {
      LoadedOptionsMerge(parsed.value, validDomains);
    }
  }
}
