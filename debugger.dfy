/** The shapes of the data the debugger client hands to the tracer: the raw
    value of a local, a stack frame, a backtrace, a break event, and the
    requests the tracer sends. The wire protocol itself is not modelled. */
module Debugger {

  /** The raw value of a local (`l.value.value`), reduced to what JavaScript
      truthiness depends on. */
  datatype JsValue =
    | Undefined
    | Null
    | Boolean(b: bool)
    | Number(x: real)
    | NaN
    | String(s: string)
    | Object

  /** JavaScript truthiness: `undefined`, `null`, `false`, `0`, `NaN` and the
      empty string are falsy, everything else is truthy. */
  predicate Truthy(v: JsValue) {
    match v
    case Undefined => false
    case Null => false
    case Boolean(b) => b
    case Number(x) => x != 0.0
    case NaN => false
    case String(s) => s != ""
    case Object => true
  }

  /** One entry of a frame's `locals` list. `json` is the text that
      `JSON.stringify(value, null, '  ')` produces for `value`; the model takes
      it as given. */
  datatype Local = Local(name: string, value: JsValue, json: string)

  /** Identity of a loaded script, as the client's script tables know it. */
  type ScriptId = int

  /** A stack frame: the script it runs in, its current (0-based) line and its locals. */
  datatype Frame = Frame(script: ScriptId, line: nat, locals: seq<Local>)

  /** The body of a backtrace response: the total depth of the call stack and
      the frames it reports, innermost first. */
  datatype Snapshot = Snapshot(totalFrames: nat, frames: seq<Frame>)

  /** A snapshot taken while the program is halted has at least one frame;
      `track` and `logPos` read `frames[0]` and `stack[0]` unguarded. */
  predicate Halted(bt: Snapshot) {
    bt.totalFrames >= 1 && |bt.frames| >= 1
  }

  /** The body of a `break` event. */
  datatype BreakEvent = BreakEvent(scriptName: string, sourceLine: nat)

  /** The requests the tracer sends to the debugger. */
  datatype Request =
    | SetBreakpoint(target: string, line: nat)
    | BacktraceRequest
    | ScriptsRequest
    | ContinueRequest
}
