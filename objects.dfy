/** Plain JavaScript objects with their key order, and jQuery's `$.extend`
    over them, which `loadUserOptions` uses to lay the stored settings over
    the defaults. */
module Objects {
  import opened JsValues


  /** A JavaScript object: its keys in insertion order and their values. */
  datatype Obj = Obj(keys: seq<string>, vals: map<string, JsValue>)

  predicate WellFormed(o: Obj) {
    && (forall i, j :: 0 <= i < j < |o.keys| ==> o.keys[i] != o.keys[j])
    && (forall k :: k in o.vals ==> k in o.keys)
    && (forall i :: 0 <= i < |o.keys| ==> o.keys[i] in o.vals)
  }

  const EmptyObj: Obj := Obj([], map[])

  /** `o[k] = v`: a new key goes to the end, an existing one keeps its place. */
  function Assign(o: Obj, k: string, v: JsValue): Obj {
    if k in o.vals then o.(vals := o.vals[k := v]) else Obj(o.keys + [k], o.vals[k := v])
  }

  lemma AssignVals(o: Obj, k: string, v: JsValue)
    ensures Assign(o, k, v).vals == o.vals[k := v]
  {}

  lemma AssignShape(o: Obj, k: string, v: JsValue)
    requires WellFormed(o)
    ensures var r := Assign(o, k, v);
      WellFormed(r) && |o.keys| <= |r.keys| && r.keys[..|o.keys|] == o.keys
  {
    if k !in o.vals {
      assert k !in o.keys;
      assert (o.keys + [k])[..|o.keys|] == o.keys;
    }
  }

  /** `$.extend(target, src)` over the first `n` keys of `src`: each defined
      value is copied over, undefined ones are skipped. */
  function ExtendPrefix(target: Obj, src: Obj, n: nat): Obj
    requires n <= |src.keys| && WellFormed(src)
  {
    if n == 0 then target
    else
      var t := ExtendPrefix(target, src, n - 1);
      var k := src.keys[n - 1];
      if src.vals[k] == Undefined then t else Assign(t, k, src.vals[k])
  }

  function Extend(target: Obj, src: Obj): Obj
    requires WellFormed(src)
  {
    ExtendPrefix(target, src, |src.keys|)
  }

  /** The keys among the first `n` of `src` whose value is defined. */
  function Copied(src: Obj, n: nat): (c: set<string>)
    requires n <= |src.keys| && WellFormed(src)
    ensures c <= src.vals.Keys
  {
    if n == 0 then {}
    else
      var k := src.keys[n - 1];
      Copied(src, n - 1) + (if src.vals[k] == Undefined then {} else {k})
  }

  lemma {:induction false} CopiedKeys(src: Obj, n: nat)
    requires n <= |src.keys| && WellFormed(src)
    ensures forall k :: k in Copied(src, n) <==> k in src.keys[..n] && src.vals[k] != Undefined
  {
    if n > 0 {
      CopiedKeys(src, n - 1);
      var last := src.keys[n - 1];
      assert src.keys[..n] == src.keys[..n - 1] + [last];
      forall k | k != last
        ensures k in Copied(src, n) <==> k in src.keys[..n] && src.vals[k] != Undefined
      {
        assert k in src.keys[..n] <==> k in src.keys[..n - 1];
      }
    }
  }

  /** `$.extend` overrides values: each defined value of the source wins,
      every other key keeps the target's value. */
  lemma {:induction false} ExtendPrefixValues(target: Obj, src: Obj, n: nat)
    requires WellFormed(src) && n <= |src.keys|
    ensures var r := ExtendPrefix(target, src, n);
      && r.vals.Keys == target.vals.Keys + Copied(src, n)
      && (forall k :: k in r.vals ==>
            r.vals[k] == if k in Copied(src, n) then src.vals[k] else target.vals[k])
  {
    if n > 0 {
      ExtendPrefixValues(target, src, n - 1);
      var t, k := ExtendPrefix(target, src, n - 1), src.keys[n - 1];
      if src.vals[k] != Undefined {
        AssignVals(t, k, src.vals[k]);
      }
    }
  }

  /** `$.extend` keeps the target's keys, in their order, in front, and adds
      each new key once. */
  lemma {:induction false} ExtendPrefixShape(target: Obj, src: Obj, n: nat)
    requires WellFormed(target) && WellFormed(src) && n <= |src.keys|
    ensures var r := ExtendPrefix(target, src, n);
      WellFormed(r) && |target.keys| <= |r.keys| && r.keys[..|target.keys|] == target.keys
  {
    if n > 0 {
      ExtendPrefixShape(target, src, n - 1);
      var t := ExtendPrefix(target, src, n - 1);
      var k := src.keys[n - 1];
      if src.vals[k] != Undefined {
        AssignShape(t, k, src.vals[k]);
        PrefixOfPrefix(target.keys, t.keys, Assign(t, k, src.vals[k]).keys);
      }
    }
  }

  lemma PrefixOfPrefix(a: seq<string>, b: seq<string>, c: seq<string>)
    requires |a| <= |b| <= |c| && b[..|a|] == a && c[..|b|] == b
    ensures c[..|a|] == a
  {
    assert c[..|a|] == c[..|b|][..|a|];
  }

  /** `$.extend(target, src)` as a map override. */
  lemma ExtendOverrides(target: Obj, src: Obj)
    requires WellFormed(target) && WellFormed(src)
    ensures var r := Extend(target, src);
      && WellFormed(r)
      && (forall k :: k in r.vals <==> k in target.vals || (k in src.vals && src.vals[k] != Undefined))
      && (forall k :: k in r.vals ==>
            r.vals[k] == if k in src.vals && src.vals[k] != Undefined then src.vals[k] else target.vals[k])
  {
    ExtendPrefixValues(target, src, |src.keys|);
    ExtendPrefixShape(target, src, |src.keys|);
    CopiedKeys(src, |src.keys|);
    assert src.keys[..|src.keys|] == src.keys;
  }
}
