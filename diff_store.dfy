/** The `Store` (runner.js:120-166): a window of per-depth slots over the call
    stack and the nested change log `log[script][line][variable]`. On every
    halt `track` resizes the window to the reported depth and records each
    local of the innermost frame whose stringified value differs from the one
    its slot holds. */
module DiffStore {
  import opened Wrappers
  import opened Debugger
  import opened Locals

  /** What a slot's `vars` object holds under a name: a stringified local, or
      the line number that `track` stores under "lastLine" in the same object. */
  datatype Saved = Text(text: string) | LineNo(line: nat)

  /** One slot of the window, `{ vars: {...} }`. */
  datatype Slot = Slot(vars: map<string, Saved>)

  const FreshSlot: Slot := Slot(map[])

  /** The key under which `track` stores the frame's line (runner.js:149). */
  const LastLine: string := "lastLine"

  /** `log[script name][line][variable] = stringified value`. */
  type Log = map<string, map<nat, map<string, string>>>

  /** The store's fields as a value. */
  datatype StoreState = StoreState(lastTotalFrames: nat, stack: seq<Slot>, log: Log)

  /** One call of `logLocal`, as its trace line reports it. */
  datatype Write = Write(file: string, line: nat, name: string, value: string)

  function Lookup(log: Log, file: string, line: nat, name: string): Option<string> {
    if file in log && line in log[file] && name in log[file][line]
    then Some(log[file][line][name])
    else None
  }

  /** No file, line or variable key of `a` is missing from `b`. */
  ghost predicate KeysKept(a: Log, b: Log) {
    forall f :: f in a ==>
      f in b && forall l :: l in a[f] ==>
        l in b[f] && forall v :: v in a[f][l] ==> v in b[f][l]
  }

  /** The variables logged so far at one line of one script. */
  function LineEntries(log: Log, file: string, line: nat): map<string, string> {
    if file in log && line in log[file] then log[file][line] else map[]
  }

  /** `log[file][line][name] = value`, creating the file object and the line
      object first when they are missing (runner.js:160-163). */
  function Logged(log: Log, file: string, line: nat, name: string, value: string): Log {
    var lines := if file in log then log[file] else map[];
    log[file := lines[line := LineEntries(log, file, line)[name := value]]]
  }

  /** One `logLocal` sets its entry, leaves every other entry as it was and
      removes no key. */
  lemma LoggedLookup(log: Log, file: string, line: nat, name: string, value: string)
    ensures KeysKept(log, Logged(log, file, line, name, value))
    ensures forall f, l, v :: Lookup(Logged(log, file, line, name, value), f, l, v) ==
              if f == file && l == line && v == name then Some(value) else Lookup(log, f, l, v)
  {
  }

  /** `k` empty slots. */
  function FreshSlots(k: nat): (r: seq<Slot>)
    ensures |r| == k && forall j :: 0 <= j < k ==> r[j] == FreshSlot
  {
    if k == 0 then [] else [FreshSlot] + FreshSlots(k - 1)
  }

  /** The window after `shift`ing slots off index 0 while it is longer than
      `n` and `unshift`ing fresh slots onto index 0 while it is shorter: the
      slots stay aligned at the outermost end, and the new innermost slots are
      empty. */
  function Resized(stack: seq<Slot>, n: nat): (r: seq<Slot>)
    ensures |r| == n
    ensures forall j :: 0 <= j < n ==>
              r[j] == if j + |stack| < n then FreshSlot else stack[j + |stack| - n]
  {
    if |stack| >= n then stack[|stack| - n..] else FreshSlots(n - |stack|) + stack
  }

  /** `savedLocals[l] !== locals[l]`: a missing entry, a different string or
      a line number all differ from the local's string. */
  predicate Differs(saved: map<string, Saved>, name: string, value: string) {
    !(name in saved && saved[name] == Text(value))
  }

  /** The names among `keys`, in their order, whose entry differs from the
      slot's value. */
  function ChangedNames(saved: map<string, Saved>, keys: seq<string>, entries: map<string, string>): (r: seq<string>)
    ensures forall k :: k in r <==> k in keys && k in entries && Differs(saved, k, entries[k])
  {
    if keys == [] then []
    else
      var init := ChangedNames(saved, keys[..|keys| - 1], entries);
      var k := keys[|keys| - 1];
      assert forall x :: x in keys <==> x in keys[..|keys| - 1] || x == k;
      if k in entries && Differs(saved, k, entries[k]) then init + [k] else init
  }

  /** The log after `logLocal` has written each of `names`, in order. */
  function LogAll(log: Log, file: string, line: nat, names: seq<string>, entries: map<string, string>): Log
    requires forall k :: k in names ==> k in entries
  {
    if names == [] then log
    else
      var k := names[|names| - 1];
      Logged(LogAll(log, file, line, names[..|names| - 1], entries), file, line, k, entries[k])
  }

  /** The slot's `vars` after `logLocal` has written each of `names`. */
  function Assigned(vars: map<string, Saved>, names: seq<string>, entries: map<string, string>): map<string, Saved>
    requires forall k :: k in names ==> k in entries
  {
    if names == [] then vars
    else
      var k := names[|names| - 1];
      Assigned(vars, names[..|names| - 1], entries)[k := Text(entries[k])]
  }

  /** The trace lines of those `logLocal` calls. */
  function Writes(file: string, line: nat, names: seq<string>, entries: map<string, string>): seq<Write>
    requires forall k :: k in names ==> k in entries
  {
    if names == [] then []
    else
      var k := names[|names| - 1];
      Writes(file, line, names[..|names| - 1], entries) + [Write(file, line, k, entries[k])]
  }

  /** The names `track(bt)` logs, in the order it logs them: the truthy
      locals whose value differs from the innermost slot of the resized
      window. */
  function TrackChanged(st: StoreState, bt: Snapshot): seq<string>
    requires Halted(bt)
  {
    var locals := GetLocals(bt.frames[0].locals);
    ChangedNames(Resized(st.stack, bt.totalFrames)[0].vars, locals.keys, locals.entries)
  }

  /** The store after `track(bt)` (runner.js:127-151). */
  function TrackSpec(st: StoreState, bt: Snapshot, names: map<ScriptId, string>): StoreState
    requires Halted(bt) && bt.frames[0].script in names
  {
    var frame := bt.frames[0];
    var locals := GetLocals(frame.locals);
    var stack := Resized(st.stack, bt.totalFrames);
    var changed := TrackChanged(st, bt);
    StoreState(
      bt.totalFrames,
      stack[0 := Slot(Assigned(stack[0].vars, changed, locals.entries)[LastLine := LineNo(frame.line)])],
      LogAll(st.log, names[frame.script], frame.line, changed, locals.entries))
  }

  /** The trace `track(bt)` prints, one line per logged local. */
  function TrackWrites(st: StoreState, bt: Snapshot, names: map<ScriptId, string>): seq<Write>
    requires Halted(bt) && bt.frames[0].script in names
  {
    Writes(names[bt.frames[0].script], bt.frames[0].line, TrackChanged(st, bt), GetLocals(bt.frames[0].locals).entries)
  }

  /** The log after writing `names` holds each of them at (`file`, `line`)
      and every other entry as before; no key is removed. */
  lemma {:induction false} LogAllLookup(log: Log, file: string, line: nat, names: seq<string>, entries: map<string, string>)
    requires forall k :: k in names ==> k in entries
    ensures KeysKept(log, LogAll(log, file, line, names, entries))
    ensures forall f, l, v :: Lookup(LogAll(log, file, line, names, entries), f, l, v) ==
              if f == file && l == line && v in names then Some(entries[v]) else Lookup(log, f, l, v)
  {
    if names != [] {
      var init := names[..|names| - 1];
      var k := names[|names| - 1];
      assert forall x :: x in names <==> x in init || x == k;
      LogAllLookup(log, file, line, init, entries);
      var mid := LogAll(log, file, line, init, entries);
      LoggedLookup(mid, file, line, k, entries[k]);
    }
  }

  /** The i-th trace line of `Writes` is the write of the i-th name. */
  lemma {:induction false} WritesAt(file: string, line: nat, names: seq<string>, entries: map<string, string>)
    requires forall k :: k in names ==> k in entries
    ensures |Writes(file, line, names, entries)| == |names|
    ensures forall j :: 0 <= j < |names| ==>
              Writes(file, line, names, entries)[j] == Write(file, line, names[j], entries[names[j]])
  {
    if names != [] {
      var init := names[..|names| - 1];
      assert forall x :: x in init ==> x in names;
      WritesAt(file, line, init, entries);
    }
  }

  /** The changed names keep the order the keys give them. */
  lemma {:induction false} ChangedNamesOrder(saved: map<string, Saved>, keys: seq<string>, entries: map<string, string>,
                                             p: nat, q: nat)
    requires p < q < |ChangedNames(saved, keys, entries)|
    ensures var r := ChangedNames(saved, keys, entries);
            exists a, b :: 0 <= a < b < |keys| && keys[a] == r[p] && keys[b] == r[q]
  {
    var r := ChangedNames(saved, keys, entries);
    var init := keys[..|keys| - 1];
    var r' := ChangedNames(saved, init, entries);
    if q < |r'| {
      ChangedNamesOrder(saved, init, entries, p, q);
      var a, b :| 0 <= a < b < |init| && init[a] == r'[p] && init[b] == r'[q];
      assert keys[a] == r[p] && keys[b] == r[q];
    } else {
      assert r == r' + [keys[|keys| - 1]] && r[p] == r'[p];
      assert r'[p] in init;
      var a :| 0 <= a < |init| && init[a] == r'[p];
      assert keys[a] == r[p] && keys[|keys| - 1] == r[q];
    }
  }

  /** A slot that already holds every entry's value changes nothing. */
  lemma {:induction false} NoneChanged(saved: map<string, Saved>, keys: seq<string>, entries: map<string, string>)
    requires forall k :: k in keys && k in entries ==> k in saved && saved[k] == Text(entries[k])
    ensures ChangedNames(saved, keys, entries) == []
  {
    if keys != [] {
      var init := keys[..|keys| - 1];
      assert forall x :: x in init ==> x in keys;
      NoneChanged(saved, init, entries);
    }
  }

  /** Against an empty slot every key with an entry differs, so all of them
      are changed, in order. */
  lemma {:induction false} ChangedNamesFresh(keys: seq<string>, entries: map<string, string>)
    requires forall k :: k in keys ==> k in entries
    ensures ChangedNames(map[], keys, entries) == keys
  {
    if keys != [] {
      var init := keys[..|keys| - 1];
      assert forall x :: x in init ==> x in keys;
      ChangedNamesFresh(init, entries);
      assert init + [keys[|keys| - 1]] == keys;
    }
  }

  /** Writing the changed names brings every key with an entry to its
      entry's value and leaves every other variable as it was. */
  lemma {:induction false} AssignedChanged(vars: map<string, Saved>, keys: seq<string>, entries: map<string, string>)
    ensures var r := Assigned(vars, ChangedNames(vars, keys, entries), entries);
            && (forall k :: k in keys && k in entries ==> k in r && r[k] == Text(entries[k]))
            && (forall k :: !(k in keys && k in entries) ==> (k in r <==> k in vars) && (k in vars ==> r[k] == vars[k]))
  {
    if keys != [] {
      var init := keys[..|keys| - 1];
      var k := keys[|keys| - 1];
      var changed := ChangedNames(vars, init, entries);
      assert forall x :: x in keys <==> x in init || x == k;
      AssignedChanged(vars, init, entries);
      if k in entries && Differs(vars, k, entries[k]) {
        assert (changed + [k])[..|changed|] == changed;
      }
    }
  }

  /** After `track` the window is as deep as the stack, the slots below the
      innermost are the resized window's, and the innermost slot holds every
      truthy local's value, the frame's line under "lastLine" and whatever
      else it held before (runner.js:131-150). */
  lemma TrackWindow(st: StoreState, bt: Snapshot, names: map<ScriptId, string>)
    requires Halted(bt) && bt.frames[0].script in names
    ensures var r := TrackSpec(st, bt, names);
            var locals := GetLocals(bt.frames[0].locals);
            var before := Resized(st.stack, bt.totalFrames)[0].vars;
            && r.lastTotalFrames == bt.totalFrames == |r.stack|
            && (forall j :: 1 <= j < bt.totalFrames ==> r.stack[j] == Resized(st.stack, bt.totalFrames)[j])
            && LastLine in r.stack[0].vars && r.stack[0].vars[LastLine] == LineNo(bt.frames[0].line)
            && (forall k :: k != LastLine && k in locals.entries ==> k in r.stack[0].vars && r.stack[0].vars[k] == Text(locals.entries[k]))
            && (forall k :: k != LastLine && k !in locals.entries ==>
                  (k in r.stack[0].vars <==> k in before) && (k in before ==> r.stack[0].vars[k] == before[k]))
  {
    var locals := GetLocals(bt.frames[0].locals);
    AssignedChanged(Resized(st.stack, bt.totalFrames)[0].vars, locals.keys, locals.entries);
  }

  /** `track` logs at the frame's script and line exactly the truthy locals
      whose value differs from the innermost slot of the resized window; every
      other entry of the log stays, and no key is removed (runner.js:139-147,
      160-163). */
  lemma TrackLog(st: StoreState, bt: Snapshot, names: map<ScriptId, string>)
    requires Halted(bt) && bt.frames[0].script in names
    ensures var r := TrackSpec(st, bt, names);
            var locals := GetLocals(bt.frames[0].locals);
            var before := Resized(st.stack, bt.totalFrames)[0].vars;
            && KeysKept(st.log, r.log)
            && forall f, l, v :: Lookup(r.log, f, l, v) ==
                 if f == names[bt.frames[0].script] && l == bt.frames[0].line &&
                    v in locals.entries && Differs(before, v, locals.entries[v])
                 then Some(locals.entries[v]) else Lookup(st.log, f, l, v)
  {
    var locals := GetLocals(bt.frames[0].locals);
    LogAllLookup(st.log, names[bt.frames[0].script], bt.frames[0].line, TrackChanged(st, bt), locals.entries);
  }

  /** The trace of `track` has one line per logged local, in the order of the
      locals' keys. */
  lemma TrackTrace(st: StoreState, bt: Snapshot, names: map<ScriptId, string>)
    requires Halted(bt) && bt.frames[0].script in names
    ensures var w := TrackWrites(st, bt, names);
            var changed := TrackChanged(st, bt);
            var locals := GetLocals(bt.frames[0].locals);
            && |w| == |changed|
            && (forall j :: 0 <= j < |w| ==>
                  w[j] == Write(names[bt.frames[0].script], bt.frames[0].line, changed[j], locals.entries[changed[j]]))
  {
    var locals := GetLocals(bt.frames[0].locals);
    WritesAt(names[bt.frames[0].script], bt.frames[0].line, TrackChanged(st, bt), locals.entries);
  }

  /** A frame deeper than the window starts from an empty slot, so every
      truthy local is logged, in key order. */
  lemma NewFrameLogsEveryLocal(st: StoreState, bt: Snapshot)
    requires Halted(bt) && bt.totalFrames > |st.stack|
    ensures TrackChanged(st, bt) == GetLocals(bt.frames[0].locals).keys
  {
    var locals := GetLocals(bt.frames[0].locals);
    assert Resized(st.stack, bt.totalFrames)[0] == FreshSlot;
    ChangedNamesFresh(locals.keys, locals.entries);
  }

  /** A store that already reflects a halt (its window as deep as the stack,
      the frame's line and every truthy local's value in the innermost slot)
      is left as it is by `track`, which logs nothing. */
  lemma TrackFixedPoint(st: StoreState, bt: Snapshot, names: map<ScriptId, string>)
    requires Halted(bt) && bt.frames[0].script in names
    requires st.lastTotalFrames == |st.stack| == bt.totalFrames
    requires var locals := GetLocals(bt.frames[0].locals);
             && LastLine in st.stack[0].vars && st.stack[0].vars[LastLine] == LineNo(bt.frames[0].line)
             && forall k :: k in locals.entries ==> k in st.stack[0].vars && st.stack[0].vars[k] == Text(locals.entries[k])
    ensures TrackSpec(st, bt, names) == st
    ensures TrackWrites(st, bt, names) == []
  {
    var locals := GetLocals(bt.frames[0].locals);
    assert Resized(st.stack, bt.totalFrames) == st.stack;
    NoneChanged(st.stack[0].vars, locals.keys, locals.entries);
    var slot := st.stack[0].vars;
    assert slot[LastLine := LineNo(bt.frames[0].line)] == slot;
    assert st.stack[0 := Slot(slot)] == st.stack;
  }

  /** Tracking the same halt twice changes nothing the second time and logs
      nothing, as long as no truthy local is named "lastLine". */
  lemma TrackTwiceIsTrackOnce(st: StoreState, bt: Snapshot, names: map<ScriptId, string>)
    requires Halted(bt) && bt.frames[0].script in names
    requires LastLine !in GetLocals(bt.frames[0].locals).entries
    ensures TrackSpec(TrackSpec(st, bt, names), bt, names) == TrackSpec(st, bt, names)
    ensures TrackWrites(TrackSpec(st, bt, names), bt, names) == []
  {
    TrackWindow(st, bt, names);
    TrackFixedPoint(TrackSpec(st, bt, names), bt, names);
  }

  /** A truthy local named "lastLine" shares its key with the line number the
      slot stores, which never equals a string: `track` logs it again on every
      halt even when its value has not changed (runner.js:149). */
  lemma LastLineRelogged(st: StoreState, bt: Snapshot, names: map<ScriptId, string>)
    requires Halted(bt) && bt.frames[0].script in names
    requires LastLine in GetLocals(bt.frames[0].locals).entries
    ensures LastLine in TrackChanged(TrackSpec(st, bt, names), bt)
    ensures TrackWrites(TrackSpec(st, bt, names), bt, names) != []
  {
    var once := TrackSpec(st, bt, names);
    TrackWindow(st, bt, names);
    assert Resized(once.stack, bt.totalFrames) == once.stack;
    var changed := TrackChanged(once, bt);
    TrackTrace(once, bt, names);
  }

  /** A call and its return leave the caller's window as the call found it:
      tracking one frame deeper only adds and writes the callee's slot, and
      the shrink on return drops exactly that slot (runner.js:131-136). */
  lemma CallReturnRestoresCaller(st: StoreState, caller: Snapshot, callee: Snapshot, names: map<ScriptId, string>)
    requires Halted(caller) && caller.frames[0].script in names
    requires Halted(callee) && callee.frames[0].script in names
    requires callee.totalFrames == caller.totalFrames + 1
    ensures var inCaller := TrackSpec(st, caller, names);
            Resized(TrackSpec(inCaller, callee, names).stack, caller.totalFrames) == inCaller.stack
  {
    var inCaller := TrackSpec(st, caller, names);
    var inCallee := TrackSpec(inCaller, callee, names);
    TrackWindow(inCaller, callee, names);
    TrackWindow(st, caller, names);
    var back := Resized(inCallee.stack, caller.totalFrames);
    forall j | 0 <= j < caller.totalFrames
      ensures back[j] == inCaller.stack[j]
    {
      assert back[j] == inCallee.stack[j + 1];
    }
  }

  /** Visiting the `i`-th of distinct keys: it is not among the names already
      written, and the changed names grow by it exactly when it differs. */
  lemma ChangedNamesStep(saved: map<string, Saved>, keys: seq<string>, entries: map<string, string>, i: nat)
    requires i < |keys|
    requires forall p, q :: 0 <= p < q < |keys| ==> keys[p] != keys[q]
    ensures keys[i] !in ChangedNames(saved, keys[..i], entries)
    ensures ChangedNames(saved, keys[..i + 1], entries) ==
              ChangedNames(saved, keys[..i], entries) +
              (if keys[i] in entries && Differs(saved, keys[i], entries[keys[i]]) then [keys[i]] else [])
  {
    assert keys[..i + 1][..i] == keys[..i];
    assert forall j :: 0 <= j < i ==> keys[..i][j] != keys[i];
  }

  /** Writing `names` leaves every other variable of the slot as it was. */
  lemma {:induction false} AssignedOther(vars: map<string, Saved>, names: seq<string>, entries: map<string, string>, k: string)
    requires forall x :: x in names ==> x in entries
    requires k !in names
    ensures k in Assigned(vars, names, entries) <==> k in vars
    ensures k in vars ==> Assigned(vars, names, entries)[k] == vars[k]
  {
    if names != [] {
      assert forall x :: x in names[..|names| - 1] ==> x in names;
      AssignedOther(vars, names[..|names| - 1], entries, k);
    }
  }

  /** Writing one more name extends each fold by that name's write: the
      innermost slot takes its value, the log its entry and the trace its line. */
  lemma FoldsStep(resized: seq<Slot>, saved: map<string, Saved>, log0: Log, writes0: seq<Write>,
                  file: string, line: nat, done: seq<string>, k: string, entries: map<string, string>)
    requires forall x :: x in done ==> x in entries
    requires k in entries && |resized| >= 1
    ensures LogAll(log0, file, line, done + [k], entries) ==
              Logged(LogAll(log0, file, line, done, entries), file, line, k, entries[k])
    ensures var before := resized[0 := Slot(Assigned(saved, done, entries))];
            before[0 := Slot(before[0].vars[k := Text(entries[k])])] ==
              resized[0 := Slot(Assigned(saved, done + [k], entries))]
    ensures (writes0 + Writes(file, line, done, entries)) + [Write(file, line, k, entries[k])] ==
              writes0 + Writes(file, line, done + [k], entries)
  {
    assert (done + [k])[..|done|] == done;
  }

  class Store {
    var lastTotalFrames: nat
    var stack: seq<Slot>
    var log: Log
    /** Every `logLocal` call so far, in order: the trace the source prints. */
    ghost var writes: seq<Write>

    function State(): StoreState
      reads this
    {
      StoreState(lastTotalFrames, stack, log)
    }

    constructor ()
      ensures State() == StoreState(0, [], map[]) && writes == []
    {
      lastTotalFrames, stack, log := 0, [], map[];
      writes := [];
    }

    /** runner.js:153-166. The script name is `getName(frame)`, a lookup in `names`. */
    method LogLocal(bt: Snapshot, frameIndex: nat, varName: string, varValue: string, frameLine: nat,
                    names: map<ScriptId, string>)
      requires frameIndex < |stack| && frameIndex < |bt.frames| && bt.frames[frameIndex].script in names
      modifies this
      ensures log == Logged(old(log), names[bt.frames[frameIndex].script], frameLine, varName, varValue)
      ensures stack == old(stack)[frameIndex := Slot(old(stack)[frameIndex].vars[varName := Text(varValue)])]
      ensures lastTotalFrames == old(lastTotalFrames)
      ensures writes == old(writes) + [Write(names[bt.frames[frameIndex].script], frameLine, varName, varValue)]
    {
      var stackLocals := stack[frameIndex];
      var frame := bt.frames[frameIndex];
      var name := names[frame.script];
      log := Logged(log, name, frameLine, varName, varValue);
      stack := stack[frameIndex := Slot(stackLocals.vars[varName := Text(varValue)])];
      writes := writes + [Write(name, frameLine, varName, varValue)];
    }

    /** The stack-size sync at the start of `track` (runner.js:131-136):
        `shift` while the window is longer than `n`, `unshift` a fresh slot
        while it is shorter. */
    method SyncStackSize(n: nat)
      modifies this
      ensures stack == Resized(old(stack), n)
      ensures lastTotalFrames == old(lastTotalFrames) && log == old(log) && writes == old(writes)
    {
      ghost var stack0 := stack;
      ghost var dropped := 0;
      while |stack| > n
        invariant dropped <= |stack0| && stack == stack0[dropped..]
        invariant |stack| >= n || dropped == 0
        invariant lastTotalFrames == old(lastTotalFrames) && log == old(log) && writes == old(writes)
        decreases |stack|
      {
        stack := stack[1..];
        dropped := dropped + 1;
      }
      ghost var shrunk := stack;
      ghost var added := 0;
      while |stack| < n
        invariant stack == FreshSlots(added) + shrunk && |stack| <= n
        invariant lastTotalFrames == old(lastTotalFrames) && log == old(log) && writes == old(writes)
        decreases n - |stack|
      {
        stack := [FreshSlot] + stack;
        added := added + 1;
      }
      if |stack0| >= n {
        assert added == 0 && stack == shrunk;
      } else {
        assert shrunk == stack0;
      }
    }

    /** The forEach has visited the locals in `done`' order: the innermost slot
        and the log hold their writes on top of `resized` and `log0`, and the
        trace has one line per write. */
    ghost predicate Visited(resized: seq<Slot>, saved: map<string, Saved>, log0: Log, writes0: seq<Write>,
                            file: string, line: nat, done: seq<string>, entries: map<string, string>)
      reads this
      requires forall k :: k in done ==> k in entries
    {
      && |resized| >= 1
      && stack == resized[0 := Slot(Assigned(saved, done, entries))]
      && log == LogAll(log0, file, line, done, entries)
      && writes == writes0 + Writes(file, line, done, entries)
    }

    /** The forEach callback of `track` (runner.js:143-147) for the `i`-th key:
        the local is passed to `logLocal` exactly when its value differs from
        the innermost slot's. */
    method VisitLocal(bt: Snapshot, names: map<ScriptId, string>, locals: Table, i: nat,
                      ghost resized: seq<Slot>, ghost log0: Log, ghost writes0: seq<Write>, ghost done: seq<string>)
      returns (ghost done': seq<string>)
      requires |bt.frames| >= 1 && bt.frames[0].script in names
      requires WellFormed(locals) && i < |locals.keys| && |resized| >= 1
      requires done == ChangedNames(resized[0].vars, locals.keys[..i], locals.entries)
      requires Visited(resized, resized[0].vars, log0, writes0, names[bt.frames[0].script], bt.frames[0].line, done, locals.entries)
      modifies this
      ensures done' == ChangedNames(resized[0].vars, locals.keys[..i + 1], locals.entries)
      ensures Visited(resized, resized[0].vars, log0, writes0, names[bt.frames[0].script], bt.frames[0].line, done', locals.entries)
      ensures lastTotalFrames == old(lastTotalFrames)
    {
      var frame := bt.frames[0];
      ghost var file := names[frame.script];
      ghost var saved := resized[0].vars;
      var l := locals.keys[i];
      ChangedNamesStep(saved, locals.keys, locals.entries, i);
      AssignedOther(saved, done, locals.entries, l);
      done' := done;
      if Differs(stack[0].vars, l, locals.entries[l]) {
        FoldsStep(resized, saved, log0, writes0, file, frame.line, done, l, locals.entries);
        LogLocal(bt, 0, l, locals.entries[l], frame.line, names);
        done' := done + [l];
      }
    }

    /** The forEach of `track` (runner.js:139-147): every truthy local of the
        innermost frame whose value differs from the innermost slot's is
        passed to `logLocal`, in key order. */
    method UpdateLocals(bt: Snapshot, names: map<ScriptId, string>, locals: Table)
      requires |bt.frames| >= 1 && bt.frames[0].script in names && |stack| >= 1
      requires WellFormed(locals)
      modifies this
      ensures var changed := ChangedNames(old(stack)[0].vars, locals.keys, locals.entries);
              && stack == old(stack)[0 := Slot(Assigned(old(stack)[0].vars, changed, locals.entries))]
              && log == LogAll(old(log), names[bt.frames[0].script], bt.frames[0].line, changed, locals.entries)
              && writes == old(writes) + Writes(names[bt.frames[0].script], bt.frames[0].line, changed, locals.entries)
      ensures lastTotalFrames == old(lastTotalFrames)
    {
      ghost var resized := stack;
      ghost var log0 := log;
      ghost var writes0 := writes;
      ghost var done: seq<string> := [];
      assert stack == resized[0 := Slot(Assigned(resized[0].vars, done, locals.entries))];
      var i := 0;
      while i < |locals.keys|
        invariant 0 <= i <= |locals.keys|
        invariant lastTotalFrames == old(lastTotalFrames)
        invariant done == ChangedNames(resized[0].vars, locals.keys[..i], locals.entries)
        invariant Visited(resized, resized[0].vars, log0, writes0, names[bt.frames[0].script], bt.frames[0].line, done, locals.entries)
      {
        done := VisitLocal(bt, names, locals, i, resized, log0, writes0, done);
        i := i + 1;
      }
      assert locals.keys[..i] == locals.keys;
    }

    /** runner.js:127-151. */
    method Track(bt: Snapshot, names: map<ScriptId, string>)
      requires Halted(bt) && bt.frames[0].script in names
      modifies this
      ensures State() == TrackSpec(old(State()), bt, names)
      ensures writes == old(writes) + TrackWrites(old(State()), bt, names)
    {
      // Sync stack size
      SyncStackSize(bt.totalFrames);
      // Update changing locals
      var frame := bt.frames[0];
      var locals := GetLocals(frame.locals);
      UpdateLocals(bt, names, locals);
      stack := stack[0 := Slot(stack[0].vars[LastLine := LineNo(frame.line)])];
      lastTotalFrames := bt.totalFrames;
    }
  }
}
