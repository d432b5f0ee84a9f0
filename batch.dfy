/** What a batch of settings does: `postSetting`'s reaction to one stored
    setting, one `setSetting` once it has settled, and `processOptions` over
    the keys of an options object in their order. The batch is stated for
    any rule, so that its properties hold apart from what each rule checks;
    `RuleOf` is the rule `setSetting` applies. */
module Batch {
  import opened JsValues
  import opened Engine
  import opened EngineProps
  import opened Objects
  import opened Settings

  /** `postSetting(name, value)`, with `values` the settings after the write. */
  function PostSettingStep(s: ExtState, name: string, value: JsValue, values: map<string, JsValue>, cfg: Config): ExtState {
    match KeyOf(name)
    case Some(BadgeColor) => SetBadgeColorStep(s, values)
    case Some(UpdateInterval) => RestartUpdateIntervalStep(s, values)
    case Some(NotifEnabled) => if value == Bool(false) then ClearNotifStep(s, cfg.notifId) else s
    case Some(NotifTimeout) => if value != Number(0) then SetNotifTimeoutStep(s, values, cfg.notifId) else s
    case _ => s
  }

  lemma InvPostSetting(s: ExtState, name: string, value: JsValue, values: map<string, JsValue>, cfg: Config)
    requires Inv(s)
    ensures Inv(PostSettingStep(s, name, value, values, cfg))
  {
    match KeyOf(name)
    case Some(UpdateInterval) => InvRestartUpdateInterval(s, values);
    case Some(NotifEnabled) => if value == Bool(false) { InvClearNotif(s, cfg.notifId); }
    case Some(NotifTimeout) => if value != Number(0) { InvSetNotifTimeout(s, values, cfg.notifId); }
    case _ =>
  }

  /** The settings of an `Options` object with the engine state it drives. */
  datatype PrefsState = PrefsState(values: map<string, JsValue>, ext: ExtState)

  /** A verdict on a setting's name and value. */
  type Rule = (string, JsValue) -> SettingOutcome

  /** The rule of `setSetting`, given the listed domains and the domains
      whose permission check resolves. */
  function RuleOf(validDomains: seq<string>, permitted: set<string>): (rule: Rule)
    ensures forall name, value :: rule(name, value) == Validate(name, value, validDomains, permitted)
  {
    (name, value) => Validate(name, value, validDomains, permitted)
  }

  /** One `setSetting(name, value)` once it has settled with `outcome`: an
      accepted value is written and `postSetting` reacts to it, a rejected
      one changes nothing. */
  function SettleStep(p: PrefsState, name: string, outcome: SettingOutcome, cfg: Config): PrefsState {
    match outcome
    case Accepted(stored) =>
      var values := p.values[name := stored];
      PrefsState(values, PostSettingStep(p.ext, name, stored, values, cfg))
    case Rejected(_) => p
  }

  /** The first `n` settings of a batch, each settled in key order. */
  function BatchStep(p: PrefsState, o: Obj, n: nat, rule: Rule, cfg: Config): PrefsState
    requires WellFormed(o) && n <= |o.keys|
  {
    if n == 0 then p
    else
      var k := o.keys[n - 1];
      SettleStep(BatchStep(p, o, n - 1, rule, cfg), k, rule(k, o.vals[k]), cfg)
  }

  /** A batch one key longer settles that key after the others. */
  lemma BatchStepNext(p: PrefsState, o: Obj, n: nat, rule: Rule, cfg: Config)
    requires WellFormed(o) && n < |o.keys|
    ensures var k := o.keys[n];
      BatchStep(p, o, n + 1, rule, cfg) == SettleStep(BatchStep(p, o, n, rule, cfg), k, rule(k, o.vals[k]), cfg)
  {
  }

  /** Whether the batch holds `k` with a value the rule accepts. */
  predicate Passes(o: Obj, k: string, rule: Rule) {
    k in o.vals && rule(k, o.vals[k]).Accepted?
  }

  /** The keys among the first `n` of a batch whose value the rule accepts. */
  function AcceptedKeys(o: Obj, n: nat, rule: Rule): (a: set<string>)
    requires WellFormed(o) && n <= |o.keys|
    ensures forall k :: k in a ==> Passes(o, k, rule)
  {
    if n == 0 then {}
    else
      var k := o.keys[n - 1];
      AcceptedKeys(o, n - 1, rule) + (if Passes(o, k, rule) then {k} else {})
  }

  /** After a batch, an accepted key holds the value its rule stores and
      every other key keeps its value. */
  lemma {:induction false} BatchValues(p: PrefsState, o: Obj, n: nat, rule: Rule, cfg: Config)
    requires WellFormed(o) && n <= |o.keys|
    ensures var r, a := BatchStep(p, o, n, rule, cfg), AcceptedKeys(o, n, rule);
      && r.values.Keys == p.values.Keys + a
      && (forall k :: k in r.values ==>
            r.values[k] == if k in a then rule(k, o.vals[k]).stored else p.values[k])
  {
    if n > 0 {
      BatchValues(p, o, n - 1, rule, cfg);
      var k := o.keys[n - 1];
      match rule(k, o.vals[k])
      case Accepted(stored) =>
        assert Passes(o, k, rule);
      case Rejected(_) =>
        assert !Passes(o, k, rule);
    }
  }

  /** Every key of the batch whose value the rule accepts is accepted, and
      only those. */
  lemma {:induction false} AcceptedKeysOf(o: Obj, n: nat, rule: Rule)
    requires WellFormed(o) && n <= |o.keys|
    ensures forall k :: k in AcceptedKeys(o, n, rule) <==> k in o.keys[..n] && Passes(o, k, rule)
  {
    if n > 0 {
      AcceptedKeysOf(o, n - 1, rule);
      assert o.keys[..n] == o.keys[..n - 1] + [o.keys[n - 1]];
    }
  }

  /** A batch keeps the engine invariant. */
  lemma {:induction false} InvBatch(p: PrefsState, o: Obj, n: nat, rule: Rule, cfg: Config)
    requires WellFormed(o) && n <= |o.keys| && Inv(p.ext)
    ensures Inv(BatchStep(p, o, n, rule, cfg).ext)
  {
    if n > 0 {
      InvBatch(p, o, n - 1, rule, cfg);
      var q := BatchStep(p, o, n - 1, rule, cfg);
      var k := o.keys[n - 1];
      match rule(k, o.vals[k])
      case Accepted(stored) =>
        InvPostSetting(q.ext, k, stored, q.values[k := stored], cfg);
      case Rejected(_) =>
    }
  }

  /** The result `processOptions` reports for one key. */
  datatype KeyResult = Passed | Failed(key: string, errors: seq<SettingError>)

  function ResultOf(key: string, outcome: SettingOutcome): (r: KeyResult)
    ensures r.Passed? <==> outcome.Accepted?
    ensures r.Failed? ==> r.key == key && r.errors == outcome.errors
  {
    match outcome
    case Accepted(_) => Passed
    case Rejected(errors) => Failed(key, errors)
  }

  /** The results `processOptions` reports for the first `n` keys of a batch. */
  function BatchResults(o: Obj, n: nat, rule: Rule): seq<KeyResult>
    requires WellFormed(o) && n <= |o.keys|
  {
    if n == 0 then []
    else
      var k := o.keys[n - 1];
      BatchResults(o, n - 1, rule) + [ResultOf(k, rule(k, o.vals[k]))]
  }

  /** A batch one key longer reports that key's result after the others. */
  lemma BatchResultsNext(o: Obj, n: nat, rule: Rule)
    requires WellFormed(o) && n < |o.keys|
    ensures var k := o.keys[n];
      BatchResults(o, n + 1, rule) == BatchResults(o, n, rule) + [ResultOf(k, rule(k, o.vals[k]))]
  {
  }

  /** One result per key, in key order: passed exactly when the rule accepts
      the key's value, failed with that key and the rule's errors otherwise. */
  lemma {:induction false} BatchResultsAt(o: Obj, n: nat, rule: Rule)
    requires WellFormed(o) && n <= |o.keys|
    ensures var rs := BatchResults(o, n, rule);
      && |rs| == n
      && forall j :: 0 <= j < n ==>
           var k := o.keys[j];
           && (rs[j].Passed? <==> rule(k, o.vals[k]).Accepted?)
           && (rs[j].Failed? ==> rs[j].key == k && rs[j].errors == rule(k, o.vals[k]).errors)
  {
    if n > 0 {
      BatchResultsAt(o, n - 1, rule);
    }
  }
}
