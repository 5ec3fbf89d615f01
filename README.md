# runner.js variable-change tracer, modelled in Dafny

`runner.js` attaches to a Node.js program halted under the V8 debugger. It
sets a breakpoint on every line of every file named on the command line. At
each halt it asks for a backtrace and compares the innermost frame's truthy
locals with what it saw last time at the same stack depth. Every local whose
stringified value changed goes into a change log keyed by script name, line
and variable name, and then the program resumes.

The model has five modules:

- `Debugger` (`debugger.dfy`) holds the data the debugger client hands over:
  raw values with JavaScript truthiness, locals, frames, backtrace snapshots,
  break events and the requests the tracer sends.
- `Locals` (`locals.dfy`) models `getLocals`. The JavaScript object it builds
  is a `Table`: a map plus its keys in insertion order. Insertion order is
  the order `Object.keys` reports.
- `DiffStore` (`diff_store.dfy`) models the `Store`: the window of per-depth
  slots, the change log, `track` and `logLocal`. `class Store` keeps the
  source's fields and updates them in place. `TrackSpec` is a function on
  values that says what one `track` does, and the lemmas about `track` are
  stated against it. A ghost `writes` field records each `logLocal` call in
  order, which is the trace the source prints.
- `Planner` (`planner.dfy`) models the first half of `setBreakpoints`: the
  command-line filter, `indexOf` with its clamped start, `split('\n')`,
  resolving and reading each file, and one `setbreakpoint` request per line.
- `Controller` (`controller.dfy`) models the event handlers and `backtrace`,
  `logPos`, `reqScripts` and `resume`. `class Client` holds the client state
  the source reads and writes. The pure functions `Step` and `Run` specify
  it, and each debugger reply (success or error) is an event.

Behaviours the model keeps as the code has them:

- Registration is sequential. `async.series` sends each `setbreakpoint`
  request after the previous one has been acknowledged. The first rejection
  stops the series, so later lines are never registered and the `backtrace`
  listener is never added.
- `track` stores the frame's line under the key `"lastLine"` in the same slot
  object as the locals. A number is never `===` to a string, so a truthy local
  named `lastLine` is logged again at every halt (`LastLineRelogged`). With no
  such local, tracking the same halt twice logs nothing the second time
  (`TrackTwiceIsTrackOnce`).
- The window grows and shrinks at index 0 (`unshift`/`shift`). Slots stay
  aligned with the outermost end of the stack.
- `resume` sends its continue request even on a closed session. `backtrace`,
  `logPos` and `reqScripts` check `destroyed` first and do nothing on a
  closed session.
- Each completed registration adds another `backtrace` listener to the
  `break` event, so a second `ready` makes every halt ask for two backtraces
  (`Session.listeners`).
- `getLocals` ignores a local named `__proto__`: assigning a string to that
  key of a plain object does not create a property, so `track` never sees it.
- `split('\n')` of a text that ends in a newline gives a final empty line, and
  that line also gets a breakpoint request.

## Model

| member | source | states |
|---|---|---|
| Locals.Assign | runner.js:176 | assigning a key keeps the table well formed and the existing key order as a prefix; it adds the key with its value, except `__proto__`, which is ignored; other entries keep their values |
| Locals.GetLocals | runner.js:169-180 | the table is well formed and holds a name exactly when it is not `__proto__` and some local of that name has a truthy value |
| Locals.GetLocalsLastWins | runner.js:173-177 | a name maps to the stringified value of its last truthy local, so later locals overwrite earlier ones |
| Locals.GetLocalsOrder | runner.js:173-177 | keys are in the order of their first truthy local, so overwriting does not move a key |
| DiffStore.LoggedLookup | runner.js:160-163 | one `logLocal` sets its own entry, leaves every other entry as it was and removes no key |
| DiffStore.FreshSlots | runner.js:135-136 | the slots added by growing are `k` empty `{ vars: {} }` slots |
| DiffStore.Resized | runner.js:131-136 | the resized window has exactly `n` slots, shares its outermost slots with the old window, and is empty at the new innermost indices |
| DiffStore.ChangedNames | runner.js:143-144 | a name is logged exactly when it is a truthy local whose value differs from the slot's |
| DiffStore.ChangedNamesOrder | runner.js:143 | logged names keep the relative order of the table's keys |
| DiffStore.NoneChanged | runner.js:144 | a slot that already holds every local's value logs nothing |
| DiffStore.ChangedNamesFresh | runner.js:135-147 | against an empty slot every truthy local is logged, in key order |
| DiffStore.LogAllLookup | runner.js:153-163 | after the writes, the log holds each written name's value at the frame's script and line, every other entry as before, and no key is removed |
| DiffStore.WritesAt | runner.js:165 | the trace has one line per written name, the i-th naming the i-th name with its value |
| DiffStore.AssignedChanged | runner.js:143-147 | after the writes the slot holds every truthy local's value and keeps every other variable unchanged |
| DiffStore.TrackWindow | runner.js:131-150 | after `track` the window and `lastTotalFrames` equal `totalFrames`; slots above 0 are the resized ones; slot 0 holds each truthy local's value, the frame's line under `lastLine`, and every other variable it held |
| DiffStore.TrackLog | runner.js:139-163 | `track` logs at the frame's script and line exactly the truthy locals whose value differs from the innermost slot's; every other log entry stays and no key is removed |
| DiffStore.TrackTrace | runner.js:143-165 | the trace of `track` has one line per logged local, in logging order, each with the script name, line, name and value |
| DiffStore.NewFrameLogsEveryLocal | runner.js:135-147 | when the stack is deeper than the window, every truthy local of the new frame is logged, in key order |
| DiffStore.TrackFixedPoint | runner.js:127-151 | a store that already reflects a halt is left unchanged by `track`, which logs nothing |
| DiffStore.TrackTwiceIsTrackOnce | runner.js:127-151 | tracking the same halt a second time changes nothing and logs nothing, provided no local is named "lastLine" |
| DiffStore.LastLineRelogged | runner.js:144-149 | a truthy local named "lastLine" is logged again on a repeated halt, because the line number overwrote its saved value |
| DiffStore.CallReturnRestoresCaller | runner.js:131-136 | after a call one level deeper, the shrink on return gives back the caller's window exactly |
| DiffStore.Store.constructor | runner.js:120-125 | a new store has `lastTotalFrames` 0, an empty window and an empty log |
| DiffStore.Store.LogLocal | runner.js:153-166 | the log gains `log[name][line][var] = value`, creating missing levels; the slot at `frameIndex` gets the value; one trace line is appended |
| DiffStore.Store.SyncStackSize | runner.js:131-136 | the shift/unshift loops leave the window equal to `Resized(old window, n)` and change nothing else |
| DiffStore.Store.VisitLocal | runner.js:143-147 | the forEach callback logs the i-th key exactly when its value differs, extending the changed names by that key |
| DiffStore.Store.UpdateLocals | runner.js:139-147 | the forEach writes exactly the changed names, in key order, into the innermost slot, the log and the trace |
| DiffStore.Store.Track | runner.js:127-151 | the store's new state is `TrackSpec` of the old state and the trace grows by `TrackWrites` |
| Planner.SearchFrom | runner.js:38 | the result is the first occurrence at or after the start, or -1 when none exists |
| Planner.IndexOf | runner.js:38 | `indexOf` clamps its start into the string, then gives the first occurrence from there, or -1 exactly when there is none |
| Planner.IsTarget | runner.js:35-38 | an argument is traced exactly when it is not "node" and does not end in "/runner.js" |
| Planner.Targets | runner.js:35-38 | the kept arguments are exactly the traced ones, never more than the command line |
| Planner.TargetsAppend | runner.js:35-38 | filtering a concatenation filters each part |
| Planner.TargetsNone | runner.js:35-38 | arguments that are all dropped keep nothing |
| Planner.Count | runner.js:42 | the separator count is at most the length and is 0 exactly when the separator is absent |
| Planner.SplitCount | runner.js:42 | `split('\n')` gives one more piece than there are newlines |
| Planner.SplitNoSeparator | runner.js:42 | pieces contain no newline |
| Planner.SplitJoinsBack | runner.js:42 | joining the pieces with newlines gives back the text |
| Planner.SplitJoin | runner.js:42 | splitting pieces joined with newlines gives back the pieces |
| Planner.ResolveOutcome | runner.js:41-42 | resolution succeeds exactly when every target resolves and reads, giving each target's file in order; otherwise it fails with the first failing target |
| Planner.LineRequests | runner.js:44-55 | one request per line index of the file, in order |
| Planner.Requests | runner.js:39-55 | every planned request sets a breakpoint |
| Planner.RequestsAt | runner.js:39-55 | the request for line `l` of file `k` comes after all requests of earlier files, ordered by file then by line |
| Planner.RequestsLength | runner.js:44-55 | there is one request per line of every file |
| Planner.RequestsMember | runner.js:44-55 | a request is planned exactly for a line that exists in a resolved file |
| Planner.RequestsDistinct | runner.js:39-55 | files with distinct real paths give a plan without duplicate requests |
| Planner.PlanIgnoresDropped | runner.js:35-38 | adding arguments the filter drops leaves the plan unchanged |
| Planner.PushLineRequests | runner.js:44-55 | the inner forEach pushes exactly the file's line requests after those already pushed |
| Planner.BreakpointRequests | runner.js:33-56 | building `breakpointRequests` gives exactly the plan, or the first target that fails to resolve |
| Controller.Fire | runner.js:80-91 | firing `n` listeners sends `n` backtrace requests, or none on a closed session, and changes nothing else |
| Controller.FirstRejected | runner.js:58-60 | the series stops at the first rejected request; every request before it was accepted |
| Controller.Step | runner.js:98-115 | every step keeps every script with a handle named |
| Controller.Run | runner.js:9-117 | a run of events keeps every script with a handle named |
| Controller.StepOnlyAppends | runner.js:9-117 | a step never takes back a sent request |
| Controller.RunOnlyAppends | runner.js:9-117 | a run never takes back a sent request |
| Controller.RegistrationSends | runner.js:58-67 | `ready` sends only breakpoint requests, plus at most one final backtrace when a halt is pending; only `sent` and the listener count change |
| Controller.BreakSends | runner.js:13-15 | a halt records the breakpoint and sends one backtrace per listener, or none on a closed session |
| Controller.ClosedStepIsInert | runner.js:80-117 | on a closed session no step tracks, asks for a backtrace or scripts, or resumes; only breakpoint requests can still be sent |
| Controller.ClosedRunIsInert | runner.js:80-117 | a closed session handles any run of events without throwing, and stays closed and inert |
| Controller.LogPosTracksKnownScripts | runner.js:94-106 | on a live session `logPos` tracks and resumes exactly when the frame's script has a handle; otherwise it only requests the scripts |
| Controller.BreakpointClearedOnlyByContinue | runner.js:72-76 | the pending breakpoint is cleared exactly by a successful continue |
| Controller.ContinueFollowsTrack | runner.js:103-105 | a continue is sent only by a live session's `logPos`, for a backtrace whose frame's script has a handle, right after tracking that backtrace |
| Controller.PendingHaltServedOnArm | runner.js:62-67 | a registration that succeeds while a halt is pending adds one listener and ends with that halt's backtrace request |
| Controller.RejectedRegistrationStops | runner.js:58-60 | a rejected registration sends requests up to and including the rejected one and adds no listener |
| Controller.Client.constructor | runner.js:5-7 | a new client starts from the initial session with a fresh store |
| Controller.Client.Backtrace | runner.js:80-91 | the new state is `BacktraceStep` of the old |
| Controller.Client.OnBreak | runner.js:13-15 | recording the halt and then running every listener gives `BreakStep` of the old state |
| Controller.Client.ReqScripts | runner.js:109-117 | the new state is `ReqScriptsStep` of the old |
| Controller.Client.Resume | runner.js:72-76 | the new state is `ResumeStep` of the old |
| Controller.Client.LogPos | runner.js:94-106 | the new state, store included, is `LogPosStep` of the old |
| Controller.Client.OnBacktrace | runner.js:84-90 | a backtrace reply moves the client as `Step` does |
| Controller.Client.OnScripts | runner.js:113-116 | a scripts reply moves the client as `Step` does |
| Controller.Client.OnContinue | runner.js:73-76 | a continue reply moves the client as `Step` does |
| Controller.Client.OnClose | runner.js:21-25 | closing moves the client as `Step` does |
| Controller.Client.Series | runner.js:58-60 | requests go out one at a time until the first rejection, which is the last one sent; the result says whether all were accepted |
| Controller.Client.OnReady | runner.js:17-68 | `ready` moves the client as `SetBreakpointsStep` does |

## Left out

- The wire protocol, `c.connect`, and the vendor client (`vendor/debugger.js` is not part of this model). Requests are appended to `sent`, and each reply is an event with its outcome as input.
- Asynchrony: every callback runs to completion as one event. For `async.series` the outcomes of all registration requests arrive together as a list of acknowledgements, and a missing acknowledgement counts as accepted.
- `JSON.stringify`: each local carries the text it stringifies to, and the model compares those texts.
- Floating point: a number is a `real`, with `NaN` as a separate value, and only its truthiness matters.
- `Object.keys` lists keys that are array indices before other keys. The model keeps plain insertion order, which is what JavaScript gives for every other key; a local's name is an identifier, never an array index.
- `frame.script.ref` (the handle `logPos` checks) and `frame.func.scriptId` (the key `getName` uses) are one `ScriptId`. The client's filling of `c.handles` and `c.scripts` from a scripts reply is modelled as adding the reply's table to both.
- The vendor client sets `destroyed` when the connection closes. The model sets it on the `Closed` event.
- The `close` handler's file write of `out.json`, the `print` report, and all console output, colours and the `error` handler's diagnostic.
- `fs.realpathSync` and `fs.readFileSync` are maps from path to real path and from real path to text. A target missing from either makes `setBreakpoints` throw before any request is sent. The model sends nothing and leaves the state as it was, but does not model the uncaught exception itself.
- Controller.EventOk: on a live session, `logPos` throws for a backtrace with no frame (at `frame.script`, runner.js:98) and for one whose frame's script has a handle but whose `totalFrames` is 0 (at `stack[0]`, runner.js:139, after the window has been emptied). The uncaught exception ends the tracer. The model excludes exactly these replies (`Controller.Throws`) and does not model the crash.
- DiffStore.Store.Track: requires the frame's script to have a name even when no local changes, while the source looks the name up only inside `logLocal`. The controller calls it only for scripts with a handle, and every such script has a name (`Controller.Inv`).
