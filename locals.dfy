/** `getLocals` (runner.js:169-180): turns a frame's list of locals into a
    name -> stringified-value object, dropping every local whose raw value is
    falsy. */
module Locals {
  import opened Debugger

  /** A JavaScript object used as a string-keyed table: its keys in insertion
      order and its entries. */
  datatype Table = Table(keys: seq<string>, entries: map<string, string>)

  /** The keys are distinct and are exactly the keys of the entries. */
  ghost predicate WellFormed(t: Table) {
    && (forall i, j :: 0 <= i < j < |t.keys| ==> t.keys[i] != t.keys[j])
    && (forall k :: k in t.entries <==> k in t.keys)
  }

  /** The key under which a plain object exposes its prototype. It is an
      inherited accessor, not an own property: assigning a string to it is
      ignored, and `Object.keys` never lists it. */
  const ProtoKey: string := "__proto__"

  /** `t[k] = v`: a new key goes to the end of the key order, an existing key
      keeps its place and takes the new value; `ProtoKey` is left alone. */
  function Assign(t: Table, k: string, v: string): (r: Table)
    requires WellFormed(t)
    ensures WellFormed(r)
    ensures t.keys <= r.keys
    ensures forall x :: x in r.entries <==> x in t.entries || (x == k && k != ProtoKey)
    ensures k != ProtoKey ==> r.entries[k] == v
    ensures forall x :: x in t.entries && x != k ==> r.entries[x] == t.entries[x]
  {
    if k == ProtoKey then t
    else Table(if k in t.entries then t.keys else t.keys + [k], t.entries[k := v])
  }

  /** Local `i` has name `k` and a truthy raw value. */
  ghost predicate TruthyAt(ls: seq<Local>, i: int, k: string) {
    0 <= i < |ls| && ls[i].name == k && Truthy(ls[i].value)
  }

  /** No later local with the same name as local `i` is truthy. */
  ghost predicate LastTruthy(ls: seq<Local>, i: int)
    requires 0 <= i < |ls|
  {
    forall j :: i < j < |ls| && ls[j].name == ls[i].name ==> !Truthy(ls[j].value)
  }

  /** The filter keeps the locals with a truthy raw value, each stored under
      its name: the table holds exactly the names of the truthy locals. */
  function GetLocals(ls: seq<Local>): (r: Table)
    ensures WellFormed(r)
    ensures forall k :: k in r.entries <==> k != ProtoKey && exists i :: TruthyAt(ls, i, k)
  {
    if ls == [] then Table([], map[])
    else
      var init := ls[..|ls| - 1];
      var l := ls[|ls| - 1];
      assert forall i, k :: TruthyAt(init, i, k) ==> TruthyAt(ls, i, k);
      assert forall i, k :: TruthyAt(ls, i, k) && i < |ls| - 1 ==> TruthyAt(init, i, k);
      if Truthy(l.value) then
        assert TruthyAt(ls, |ls| - 1, l.name);
        Assign(GetLocals(init), l.name, l.json)
      else
        GetLocals(init)
  }

  /** A later truthy local of the same name overwrites an earlier one: each
      name maps to the stringified value of its last truthy local. */
  lemma {:induction false} GetLocalsLastWins(ls: seq<Local>, i: int)
    requires 0 <= i < |ls| && Truthy(ls[i].value) && LastTruthy(ls, i) && ls[i].name != ProtoKey
    ensures ls[i].name in GetLocals(ls).entries
    ensures GetLocals(ls).entries[ls[i].name] == ls[i].json
  {
    assert TruthyAt(ls, i, ls[i].name);
    if i < |ls| - 1 {
      var init := ls[..|ls| - 1];
      assert LastTruthy(init, i);
      GetLocalsLastWins(init, i);
    }
  }

  /** The last local leaves the keys as they were, or appends its name when
      it is truthy and new to the table. */
  lemma GetLocalsLast(ls: seq<Local>)
    requires |ls| >= 1
    ensures var t := GetLocals(ls[..|ls| - 1]);
            var l := ls[|ls| - 1];
            var r := GetLocals(ls);
            && t.keys <= r.keys
            && (|t.keys| < |r.keys| ==> Truthy(l.value) && l.name !in t.entries && r.keys == t.keys + [l.name])
  {
  }

  /** Overwriting keeps a key's place: the keys are in the order in which
      their first truthy local appears. */
  lemma {:induction false} GetLocalsOrder(ls: seq<Local>, a: int, b: int, j: int)
    requires 0 <= a < b < |GetLocals(ls).keys|
    requires TruthyAt(ls, j, GetLocals(ls).keys[b])
    ensures exists i :: i < j && TruthyAt(ls, i, GetLocals(ls).keys[a])
  {
    var init := ls[..|ls| - 1];
    var t := GetLocals(init);
    var l := ls[|ls| - 1];
    var r := GetLocals(ls);
    GetLocalsLast(ls);
    if b < |t.keys| {
      // both keys were already present before the last local
      assert r.keys[a] == t.keys[a] && r.keys[b] == t.keys[b];
      if j < |ls| - 1 {
        assert TruthyAt(init, j, t.keys[b]);
        GetLocalsOrder(init, a, b, j);
        var i :| i < j && TruthyAt(init, i, t.keys[a]);
        assert TruthyAt(ls, i, r.keys[a]);
      } else {
        assert t.keys[b] in t.entries;
        var j' :| TruthyAt(init, j', t.keys[b]);
        GetLocalsOrder(init, a, b, j');
        var i :| i < j' && TruthyAt(init, i, t.keys[a]);
        assert TruthyAt(ls, i, r.keys[a]);
      }
    } else {
      // key b is the last local's name, new in the table
      assert r.keys[b] == l.name;
      if j < |ls| - 1 {
        assert TruthyAt(init, j, l.name);
        assert false;
      }
      assert t.keys[a] in t.entries;
      var i :| TruthyAt(init, i, t.keys[a]);
      assert TruthyAt(ls, i, r.keys[a]);
    }
  }
}
