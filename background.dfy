/** The listeners the background page registers with the browser: the
    `updateOptions` action of the message router, which settles the options
    page's form and answers with the errors per setting, and the two
    notification click listeners. */
module Background {
  import opened JsValues
  import opened Engine
  import opened EngineProps
  import opened Ext
  import opened Objects
  import opened Settings
  import opened Batch
  import opened Prefs

  // ---------------------------------------------------------------------
  // The answer to `updateOptions`
  // ---------------------------------------------------------------------

  /** `{ status: true }`, or `{ status: false, errors }` with the messages
      filed under each setting that was refused. */
  datatype Response = Saved | Refused(errors: map<string, seq<string>>)

  /** `results.filter(el => !el.status)`. */
  function Failures(rs: seq<KeyResult>): (fs: seq<KeyResult>)
    ensures forall j :: 0 <= j < |fs| ==> fs[j].Failed?
    ensures |fs| <= |rs|
    ensures forall r :: r in fs <==> r in rs && r.Failed?
  {
    if |rs| == 0 then []
    else
      var last := rs[|rs| - 1];
      assert rs == rs[..|rs| - 1] + [last];
      Failures(rs[..|rs| - 1]) + (if last.Failed? then [last] else [])
  }

  lemma FailuresNext(rs: seq<KeyResult>, r: KeyResult)
    ensures Failures(rs + [r]) == Failures(rs) + (if r.Failed? then [r] else [])
  {
    assert (rs + [r])[..|rs|] == rs;
  }

  /** The messages of a list of errors, as `setSetting` words them. */
  function ErrorTexts(es: seq<SettingError>): seq<string> {
    seq(|es|, j requires 0 <= j < |es| => Text(es[j]))
  }

  /** The messages already filed under `k`. */
  function Prior(m: map<string, seq<string>>, k: string): seq<string> {
    if k in m then m[k] else []
  }

  /** What `errors.add(el.key, el.errors)` for each failure of `fs`, in
      order, leaves in a new collection. */
  function Filed(fs: seq<KeyResult>): map<string, seq<string>> {
    if |fs| == 0 then map[]
    else
      var m, f := Filed(fs[..|fs| - 1]), fs[|fs| - 1];
      if f.Failed? then m[f.key := Prior(m, f.key) + ErrorTexts(f.errors)] else m
  }

  lemma FiledNext(fs: seq<KeyResult>, i: nat)
    requires i < |fs| && fs[i].Failed?
    ensures var m := Filed(fs[..i]);
      Filed(fs[..i + 1]) == m[fs[i].key := Prior(m, fs[i].key) + ErrorTexts(fs[i].errors)]
  {
    assert fs[..i + 1][..i] == fs[..i];
  }

  lemma FiledAppend(fs: seq<KeyResult>, f: KeyResult)
    ensures var m := Filed(fs);
      Filed(fs + [f]) == if f.Failed? then m[f.key := Prior(m, f.key) + ErrorTexts(f.errors)] else m
  {
    assert (fs + [f])[..|fs|] == fs;
  }

  /** The answer `updateOptions` sends once the batch has settled. */
  function Reply(results: seq<KeyResult>): Response {
    var failed := Failures(results);
    if |failed| > 0 then Refused(Filed(failed)) else Saved
  }

  /** The messages filed for the first `n` keys of a batch, key by key. */
  function FiledFor(o: Obj, n: nat, rule: Rule): map<string, seq<string>>
    requires WellFormed(o) && n <= |o.keys|
  {
    if n == 0 then map[]
    else
      var k, m := o.keys[n - 1], FiledFor(o, n - 1, rule);
      var outcome := rule(k, o.vals[k]);
      if outcome.Rejected? then m[k := Prior(m, k) + ErrorTexts(outcome.errors)] else m
  }

  /** Filing the failures of the batch's results is filing key by key. */
  lemma {:induction false} FiledForIsFiled(o: Obj, n: nat, rule: Rule)
    requires WellFormed(o) && n <= |o.keys|
    ensures FiledFor(o, n, rule) == Filed(Failures(BatchResults(o, n, rule)))
  {
    if n > 0 {
      FiledForIsFiled(o, n - 1, rule);
      var k := o.keys[n - 1];
      var r := ResultOf(k, rule(k, o.vals[k]));
      var rs := BatchResults(o, n - 1, rule);
      assert BatchResults(o, n, rule) == rs + [r];
      FailuresNext(rs, r);
      if r.Failed? {
        FiledAppend(Failures(rs), r);
      } else {
        assert Failures(rs) + [] == Failures(rs);
      }
    }
  }

  /** Nothing is filed yet for the keys after the first `n`. */
  lemma {:induction false} FiledForAhead(o: Obj, n: nat, rule: Rule)
    requires WellFormed(o) && n <= |o.keys|
    ensures forall j :: n <= j < |o.keys| ==> o.keys[j] !in FiledFor(o, n, rule)
  {
    if n > 0 {
      FiledForAhead(o, n - 1, rule);
      var k, m0 := o.keys[n - 1], FiledFor(o, n - 1, rule);
      forall j | n <= j < |o.keys|
        ensures o.keys[j] !in FiledFor(o, n, rule)
      {
        assert o.keys[j] != k && o.keys[j] !in m0;
      }
    }
  }

  /** Every key of `m` is a refused setting of `o`, filed with its own messages. */
  predicate OnlyRefused(m: map<string, seq<string>>, o: Obj, rule: Rule) {
    forall k :: k in m ==>
      k in o.vals && rule(k, o.vals[k]).Rejected? && m[k] == ErrorTexts(rule(k, o.vals[k]).errors)
  }

  lemma OnlyRefusedFile(m: map<string, seq<string>>, o: Obj, rule: Rule, k: string)
    requires OnlyRefused(m, o, rule) && k in o.vals && rule(k, o.vals[k]).Rejected?
    ensures OnlyRefused(m[k := ErrorTexts(rule(k, o.vals[k]).errors)], o, rule)
  {
  }

  /** Every filed key is a refused setting, with its own messages. */
  lemma {:induction false} FiledForRefused(o: Obj, n: nat, rule: Rule)
    requires WellFormed(o) && n <= |o.keys|
    ensures OnlyRefused(FiledFor(o, n, rule), o, rule)
  {
    if n > 0 {
      FiledForRefused(o, n - 1, rule);
      FiledForAhead(o, n - 1, rule);
      var k, m0 := o.keys[n - 1], FiledFor(o, n - 1, rule);
      if rule(k, o.vals[k]).Rejected? {
        var texts := ErrorTexts(rule(k, o.vals[k]).errors);
        assert Prior(m0, k) + texts == texts by {
          assert k !in m0;
        }
        OnlyRefusedFile(m0, o, rule, k);
      }
    }
  }

  /** Every refused setting among the first `n` keys is filed. */
  lemma {:induction false} FiledForCovers(o: Obj, n: nat, rule: Rule)
    requires WellFormed(o) && n <= |o.keys|
    ensures forall j :: 0 <= j < n && rule(o.keys[j], o.vals[o.keys[j]]).Rejected? ==>
      o.keys[j] in FiledFor(o, n, rule)
  {
    if n > 0 {
      FiledForCovers(o, n - 1, rule);
    }
  }

  /** One key more fails exactly when that key is refused. */
  lemma FailuresForNext(o: Obj, n: nat, rule: Rule)
    requires WellFormed(o) && 0 < n <= |o.keys|
    ensures var k := o.keys[n - 1];
      Failures(BatchResults(o, n, rule)) == [] <==>
        Failures(BatchResults(o, n - 1, rule)) == [] && rule(k, o.vals[k]).Accepted?
  {
    var k := o.keys[n - 1];
    var r := ResultOf(k, rule(k, o.vals[k]));
    var rs := BatchResults(o, n - 1, rule);
    assert BatchResults(o, n, rule) == rs + [r];
    FailuresNext(rs, r);
  }

  /** Whether each of the first `n` keys of a batch is accepted, key by key. */
  predicate AllAccepted(o: Obj, n: nat, rule: Rule)
    requires WellFormed(o) && n <= |o.keys|
  {
    n == 0 || (AllAccepted(o, n - 1, rule) && rule(o.keys[n - 1], o.vals[o.keys[n - 1]]).Accepted?)
  }

  lemma {:induction false} AllAcceptedEach(o: Obj, n: nat, rule: Rule)
    requires WellFormed(o) && n <= |o.keys|
    ensures AllAccepted(o, n, rule) <==> forall j :: 0 <= j < n ==> rule(o.keys[j], o.vals[o.keys[j]]).Accepted?
  {
    if n > 0 {
      AllAcceptedEach(o, n - 1, rule);
    }
  }

  lemma {:induction false} NoFailuresAll(o: Obj, n: nat, rule: Rule)
    requires WellFormed(o) && n <= |o.keys|
    ensures Failures(BatchResults(o, n, rule)) == [] <==> AllAccepted(o, n, rule)
  {
    if n > 0 {
      NoFailuresAll(o, n - 1, rule);
      FailuresForNext(o, n, rule);
    }
  }

  /** The first `n` keys have no failure exactly when each is accepted. */
  lemma NoFailuresAt(o: Obj, n: nat, rule: Rule)
    requires WellFormed(o) && n <= |o.keys|
    ensures Failures(BatchResults(o, n, rule)) == [] <==>
      forall j :: 0 <= j < n ==> rule(o.keys[j], o.vals[o.keys[j]]).Accepted?
  {
    NoFailuresAll(o, n, rule);
    AllAcceptedEach(o, n, rule);
  }

  /** `updateOptions` answers `{ status: true }` exactly when every setting
      of the form is accepted; otherwise it answers with the messages of
      each refused setting, under that setting's name, and nothing else. */
  lemma ReplyMeaning(o: Obj, rule: Rule)
    requires WellFormed(o)
    ensures var r := Reply(BatchResults(o, |o.keys|, rule));
      && (r.Saved? <==> forall k :: k in o.vals ==> rule(k, o.vals[k]).Accepted?)
      && (r.Refused? ==> forall k :: k in r.errors <==> k in o.vals && rule(k, o.vals[k]).Rejected?)
      && (r.Refused? ==> forall k :: k in r.errors ==> r.errors[k] == ErrorTexts(rule(k, o.vals[k]).errors))
  {
    ReplySaved(o, rule);
    ReplyRefused(o, rule);
  }

  lemma ReplySaved(o: Obj, rule: Rule)
    requires WellFormed(o)
    ensures Reply(BatchResults(o, |o.keys|, rule)).Saved? <==>
      forall k :: k in o.vals ==> rule(k, o.vals[k]).Accepted?
  {
    NoFailuresAt(o, |o.keys|, rule);
    forall k | k in o.vals
      ensures exists j :: 0 <= j < |o.keys| && o.keys[j] == k
    {
      assert k in o.keys;
    }
  }

  lemma ReplyRefused(o: Obj, rule: Rule)
    requires WellFormed(o)
    ensures var r := Reply(BatchResults(o, |o.keys|, rule));
      && (r.Refused? ==> forall k :: k in r.errors <==> k in o.vals && rule(k, o.vals[k]).Rejected?)
      && (r.Refused? ==> forall k :: k in r.errors ==> r.errors[k] == ErrorTexts(rule(k, o.vals[k]).errors))
  {
    FiledForIsFiled(o, |o.keys|, rule);
    FiledForRefused(o, |o.keys|, rule);
    FiledForCovers(o, |o.keys|, rule);
  }

  /** The `updateOptions` action: settle the form's settings, then either
      save once more and answer `{ status: true }`, or file the errors of
      every refused setting and answer with them. */
  method UpdateOptions(prefs: Options, data: Obj, permitted: set<string>) returns (resp: Response)
    requires prefs.Valid() && WellFormed(data)
    modifies prefs, prefs.ext
    ensures var rule := RuleOf(prefs.validDomains, permitted);
      && resp == Reply(BatchResults(data, |data.keys|, rule))
      && prefs.State() == BatchStep(old(prefs.State()), data, |data.keys|, rule, prefs.ext.Cfg())
    ensures prefs.saved == Some(prefs.values)
    ensures prefs.saves == old(prefs.saves) + if resp.Saved? then 2 else 1
    ensures prefs.Valid()
  {
    var results := prefs.ProcessOptions(data, permitted);
    var failed := Failures(results);
    if |failed| > 0 {
      var errors := FileErrors(failed);
      resp := Refused(errors);
    } else {
      prefs.SaveOptions();
      resp := Saved;
    }
  }

  /** `failed.forEach(el => errors.add(el.key, el.errors))` on a new
      collection, then `errors.getAll()`. */
  method FileErrors(failed: seq<KeyResult>) returns (filed: map<string, seq<string>>)
    requires forall j :: 0 <= j < |failed| ==> failed[j].Failed?
    ensures filed == Filed(failed)
  {
    var errors := new ErrorCollection();
    for i := 0 to |failed|
      invariant errors.Valid() && errors.collection == Filed(failed[..i])
    {
      errors.Add(failed[i].key, Many(ErrorTexts(failed[i].errors)));
      FiledNext(failed, i);
    }
    assert failed[..|failed|] == failed;
    filed := errors.collection;
  }

  // ---------------------------------------------------------------------
  // Notification clicks
  // ---------------------------------------------------------------------

  /** `createTab(url)`: the page opens in the current window, or in a new
      one when there is none; either way one page is opened. */
  method CreateTab(ext: Extension, url: string)
    requires ext.Valid()
    modifies ext
    ensures ext.Snapshot() == old(ext.Snapshot()).(effects := old(ext.effects) + [OpenTab(url)])
    ensures ext.Valid()
  {
    ghost var s0 := ext.Snapshot();
    ext.effects := ext.effects + [OpenTab(url)];
    InvDisplay(s0, s0.badgeText, s0.effects + [OpenTab(url)]);
  }

  /** `chrome.notifications.clear(id)` called directly, without the
      extension's own bookkeeping. */
  method ClearNotification(ext: Extension, id: string)
    requires ext.Valid()
    modifies ext
    ensures ext.Snapshot() == old(ext.Snapshot()).(effects := old(ext.effects) + [Effect.ClearNotif(id)])
    ensures ext.Valid()
  {
    ghost var s0 := ext.Snapshot();
    ext.effects := ext.effects + [Effect.ClearNotif(id)];
    InvDisplay(s0, s0.badgeText, s0.effects + [Effect.ClearNotif(id)]);
  }

  /** The `notifications.onButtonClicked` listener: open the page of the
      clicked button, then close the notification. For a notification the
      extension has no button indexes for, reading them fails and the
      listener stops before doing anything (`completed` is false). */
  method OnButtonClicked(ext: Extension, prefs: map<string, JsValue>, id: string, btnIndex: int)
    returns (completed: bool)
    requires ext.Valid()
    modifies ext
    ensures var step := ClickStep(old(ext.Snapshot()), prefs, id, btnIndex);
      && completed == step.Some?
      && ext.Snapshot() == if step.Some? then step.value else old(ext.Snapshot())
    ensures ext.Valid()
  {
    if id !in ext.buttonIndexes {
      return false;
    }
    var ixs := ext.buttonIndexes[id];
    if btnIndex == ixs.notifs {
      CreateTab(ext, PageUrl(prefs, NotifsPath));
    } else if btnIndex == ixs.messages {
      CreateTab(ext, PageUrl(prefs, MessagesPath));
    }
    ClearNotification(ext, id);
    completed := true;
  }

  /** Firefox's `notifications.onClicked` listener, registered only there:
      a click on the notification's body closes it. */
  method OnClicked(ext: Extension, id: string)
    requires ext.Valid() && ext.isFirefox
    modifies ext
    ensures ext.Snapshot() == BodyClickStep(old(ext.Snapshot()), id)
    ensures ext.Valid()
  {
    ClearNotification(ext, id);
  }
}
