/** The stepping control loop of runner.js (lines 9-27, 58-117): the client's
    event handlers, `backtrace`, `logPos`, `reqScripts` and `resume`. Every
    request goes out through `sent`; every reply from the debugger comes back
    as an event whose outcome, success or error, is an input. */
module Controller {
  import opened Wrappers
  import opened Debugger
  import opened DiffStore
  import opened Planner

  /** The controller's state: the client's `destroyed` flag, the pending
      `breakpoint`, how many `backtrace` listeners the `break` event has, the
      client's script tables, the store, and every request sent so far. */
  datatype Session = Session(
    destroyed: bool,
    breakpoint: Option<BreakEvent>,
    listeners: nat,
    handles: set<ScriptId>,
    names: map<ScriptId, string>,
    store: StoreState,
    sent: seq<Request>)

  /** Every script with a handle also has a name. */
  predicate Inv(s: Session) {
    s.handles <= s.names.Keys
  }

  /** What the debugger reports: a halt, the start of the session, a reply to
      one of the requests, a client error, or the end of the session. A reply
      to `setbreakpoint` requests is the list of their outcomes, in order; a
      reply to `scripts` carries the backtrace its callback closes over. */
  datatype Event =
    | Break(ev: BreakEvent)
    | Ready(argv: seq<string>, realpath: map<string, string>, contents: map<string, string>, acks: seq<bool>)
    | BacktraceReplied(backtrace: Result<Snapshot, string>)
    | ScriptsReplied(scripts: Result<map<ScriptId, string>, string>, pending: Snapshot)
    | ContinueReplied(outcome: Result<(), string>)
    | ClientError
    | Closed

  /** `logPos(frame, res)` on a live session throws for this backtrace: it
      has no frame, so `frame.script` fails (runner.js:98), or its frame's
      script has a handle and the stack is empty, so `track` empties the
      window and then reads `stack[0]` (runner.js:132-139). */
  predicate Throws(s: Session, bt: Snapshot) {
    && !s.destroyed
    && (|bt.frames| == 0 || (bt.frames[0].script in s.handles && bt.totalFrames == 0))
  }

  /** The event does not make the tracer throw: a reply that reaches
      `logPos` does not carry a backtrace for which it `Throws`. */
  predicate EventOk(s: Session, e: Event) {
    match e
    case BacktraceReplied(Ok(bt)) => !Throws(s, bt)
    case ScriptsReplied(Ok(table), bt) => !Throws(s.(handles := s.handles + table.Keys, names := s.names + table), bt)
    case _ => true
  }

  /** The session as the client creates it: nothing known, nothing sent. */
  const Initial: Session := Session(false, None, 0, {}, map[], StoreState(0, [], map[]), [])

  /** `backtrace()` (runner.js:79-91): a closed session only reports;
      otherwise a backtrace is requested. */
  function BacktraceStep(s: Session): Session {
    if s.destroyed then s else s.(sent := s.sent + [BacktraceRequest])
  }

  /** `n` `backtrace` listeners fired one after the other. */
  function Fire(s: Session, n: nat): (r: Session)
    ensures r.(sent := s.sent) == s
    ensures r.sent == s.sent + (if s.destroyed then [] else seq(n, _ => BacktraceRequest))
  {
    if n == 0 then s
    else
      var before := Fire(s, n - 1);
      var r := BacktraceStep(before);
      assert s.destroyed || seq(n, _ => BacktraceRequest) == seq(n - 1, _ => BacktraceRequest) + [BacktraceRequest];
      r
  }

  /** The `break` event (runner.js:13-15, 63): the first listener records the
      halt, then every `backtrace` listener added by a completed registration runs. */
  function BreakStep(s: Session, ev: BreakEvent): Session {
    Fire(s.(breakpoint := Some(ev)), s.listeners)
  }

  /** `reqScripts(frame, backtrace)` (runner.js:109-117). */
  function ReqScriptsStep(s: Session): Session {
    if s.destroyed then s else s.(sent := s.sent + [ScriptsRequest])
  }

  /** `resume()` (runner.js:71-76): the continue request itself does not look
      at the `destroyed` flag. */
  function ResumeStep(s: Session): Session {
    s.(sent := s.sent + [ContinueRequest])
  }

  /** `logPos(frame, res)` (runner.js:94-106): a closed session only reports;
      a frame whose script has no handle yet first asks for the scripts;
      otherwise the halt is tracked and the program resumed. */
  function LogPosStep(s: Session, bt: Snapshot): Session
    requires Inv(s) && !Throws(s, bt)
  {
    if s.destroyed then s
    else if bt.frames[0].script !in s.handles then ReqScriptsStep(s)
    else ResumeStep(s.(store := TrackSpec(s.store, bt, s.names)))
  }

  /** How many of the first `n` requests the debugger accepted before the
      first rejection; a request with no outcome listed counts as accepted. */
  function FirstRejected(acks: seq<bool>, n: nat): (k: nat)
    ensures k <= n
    ensures forall i :: 0 <= i < k && i < |acks| ==> acks[i]
    ensures k < n ==> k < |acks| && !acks[k]
  {
    if n == 0 then 0
    else
      var k := FirstRejected(acks, n - 1);
      if k < n - 1 then k
      else if n - 1 < |acks| && !acks[n - 1] then n - 1
      else n
  }

  /** `setBreakpoints()` (runner.js:29-68): plan the requests, send them one
      after the other until one is rejected (`async.series`), and only when
      all are accepted add the `backtrace` listener and serve a halt that
      is already pending. An unreadable target throws before anything is sent. */
  function SetBreakpointsStep(s: Session, argv: seq<string>, realpath: map<string, string>,
                          contents: map<string, string>, acks: seq<bool>): Session
  {
    match Plan(argv, realpath, contents)
    case Err(_) => s
    case Ok(requests) =>
      var k := FirstRejected(acks, |requests|);
      if k < |requests| then s.(sent := s.sent + requests[..k + 1])
      else
        var armed := s.(sent := s.sent + requests, listeners := s.listeners + 1);
        if armed.breakpoint.Some? then BacktraceStep(armed) else armed
  }

  /** The controller's reaction to one event; every step keeps every handled
      script named. */
  function Step(s: Session, e: Event): (r: Session)
    requires Inv(s) && EventOk(s, e)
    ensures Inv(r)
  {
    match e
    case Break(ev) => BreakStep(s, ev)
    case Ready(argv, realpath, contents, acks) => SetBreakpointsStep(s, argv, realpath, contents, acks)
    case BacktraceReplied(reply) =>
      (match reply
       case Err(_) => s
       case Ok(bt) => LogPosStep(s, bt))
    case ScriptsReplied(reply, bt) =>
      (match reply
       case Err(_) => s
       case Ok(table) => LogPosStep(s.(handles := s.handles + table.Keys, names := s.names + table), bt))
    case ContinueReplied(outcome) =>
      (match outcome
       case Err(_) => s
       case Ok(_) => s.(breakpoint := None))
    case ClientError => s
    case Closed => s.(destroyed := true)
  }

  /** Every event of the run is handled without throwing, each in the state
      the events before it leave. */
  predicate RunOk(s: Session, es: seq<Event>)
    requires Inv(s)
    decreases |es|
  {
    es == [] || (EventOk(s, es[0]) && RunOk(Step(s, es[0]), es[1..]))
  }

  /** A run of events, each handled by `Step`. */
  function Run(s: Session, es: seq<Event>): (r: Session)
    requires Inv(s) && RunOk(s, es)
    ensures Inv(r)
    decreases |es|
  {
    if es == [] then s else Run(Step(s, es[0]), es[1..])
  }

  /** A step only ever appends requests. */
  lemma StepOnlyAppends(s: Session, e: Event)
    requires Inv(s) && EventOk(s, e)
    ensures s.sent <= Step(s, e).sent
  {
  }

  /** A run only ever appends requests: nothing sent is taken back. */
  lemma {:induction false} RunOnlyAppends(s: Session, es: seq<Event>)
    requires Inv(s) && RunOk(s, es)
    ensures s.sent <= Run(s, es).sent
    decreases |es|
  {
    if es != [] {
      StepOnlyAppends(s, es[0]);
      RunOnlyAppends(Step(s, es[0]), es[1..]);
    }
  }

  /** A registration sends breakpoint requests and at most one backtrace, for
      a pending halt, as its last request; it changes nothing else but the
      number of listeners. */
  lemma RegistrationSends(s: Session, argv: seq<string>, realpath: map<string, string>,
                          contents: map<string, string>, acks: seq<bool>)
    ensures var r := SetBreakpointsStep(s, argv, realpath, contents, acks);
            && r.(sent := s.sent, listeners := s.listeners) == s
            && s.sent <= r.sent
            && forall i :: |s.sent| <= i < |r.sent| ==>
                 r.sent[i].SetBreakpoint? ||
                 (i == |r.sent| - 1 && r.sent[i] == BacktraceRequest && !s.destroyed && s.breakpoint.Some?)
  {
    var r := SetBreakpointsStep(s, argv, realpath, contents, acks);
    match Plan(argv, realpath, contents)
    case Err(_) =>
    case Ok(requests) =>
      var k := FirstRejected(acks, |requests|);
      if k < |requests| {
        assert forall i :: |s.sent| <= i < |r.sent| ==> r.sent[i] == requests[..k + 1][i - |s.sent|];
      } else {
        assert forall i :: |s.sent| <= i < |s.sent| + |requests| ==> r.sent[i] == requests[i - |s.sent|];
      }
  }

  /** A halt sends one backtrace request per listener, unless the session is
      closed, and changes nothing else but the pending breakpoint. */
  lemma BreakSends(s: Session, ev: BreakEvent)
    ensures var r := BreakStep(s, ev);
            && r.(sent := s.sent) == s.(breakpoint := Some(ev))
            && s.sent <= r.sent
            && |r.sent| == |s.sent| + (if s.destroyed then 0 else s.listeners)
            && forall i :: |s.sent| <= i < |r.sent| ==> r.sent[i] == BacktraceRequest
  {
  }

  /** Once the session is closed, no step tracks, asks for a backtrace or the
      scripts, or resumes: the store stays as it is, and the only requests
      still sent are breakpoint registrations from a late `ready`
      (runner.js:82, 96, 111). */
  lemma ClosedStepIsInert(s: Session, e: Event)
    requires Inv(s) && EventOk(s, e) && s.destroyed
    ensures var r := Step(s, e);
            && r.destroyed && r.store == s.store
            && s.sent <= r.sent
            && forall i :: |s.sent| <= i < |r.sent| ==> r.sent[i].SetBreakpoint?
  {
    if e.Ready? {
      RegistrationSends(s, e.argv, e.realpath, e.contents, e.acks);
    } else if e.Break? {
      BreakSends(s, e.ev);
    }
  }

  /** A closed session handles any run of events without throwing, since
      every handler that reads a frame returns first, and stays closed and
      inert. */
  lemma {:induction false} ClosedRunIsInert(s: Session, es: seq<Event>)
    requires Inv(s) && s.destroyed
    ensures RunOk(s, es)
    ensures var r := Run(s, es);
            && r.destroyed && r.store == s.store
            && s.sent <= r.sent
            && forall i :: |s.sent| <= i < |r.sent| ==> r.sent[i].SetBreakpoint?
    decreases |es|
  {
    if es != [] {
      var next := Step(s, es[0]);
      ClosedStepIsInert(s, es[0]);
      ClosedRunIsInert(next, es[1..]);
      var r := Run(s, es);
      forall i | |s.sent| <= i < |r.sent|
        ensures r.sent[i].SetBreakpoint?
      {
        if i < |next.sent| {
          assert r.sent[i] == next.sent[i];
        }
      }
    }
  }

  /** `logPos` on a live session tracks and resumes exactly when the frame's
      script has a handle, and otherwise asks for the scripts and leaves the
      store alone (runner.js:98-105). */
  lemma LogPosTracksKnownScripts(s: Session, bt: Snapshot)
    requires Inv(s) && !Throws(s, bt) && !s.destroyed
    ensures bt.frames[0].script in s.handles ==>
              LogPosStep(s, bt) == s.(store := TrackSpec(s.store, bt, s.names), sent := s.sent + [ContinueRequest])
    ensures bt.frames[0].script !in s.handles ==>
              LogPosStep(s, bt) == s.(sent := s.sent + [ScriptsRequest])
  {
  }

  /** The pending breakpoint is cleared by a successful continue and by
      nothing else (runner.js:73-75). */
  lemma BreakpointClearedOnlyByContinue(s: Session, e: Event)
    requires Inv(s) && EventOk(s, e) && s.breakpoint.Some?
    ensures Step(s, e).breakpoint.None? <==> e.ContinueReplied? && e.outcome.Ok?
  {
    if e.Break? {
      assert BreakStep(s, e.ev).breakpoint == Some(e.ev);
    }
  }

  /** A continue goes out only from `logPos`, right after the halt it
      reported was tracked (runner.js:103-105). */
  lemma ContinueFollowsTrack(s: Session, e: Event)
    requires Inv(s) && EventOk(s, e)
    requires ContinueRequest in Step(s, e).sent[|s.sent|..]
    ensures !s.destroyed
    ensures e.BacktraceReplied? ==>
              && e.backtrace.Ok? && Halted(e.backtrace.value)
              && e.backtrace.value.frames[0].script in s.handles
              && Step(s, e).store == TrackSpec(s.store, e.backtrace.value, s.names)
    ensures e.ScriptsReplied? ==>
              && e.scripts.Ok? && Halted(e.pending)
              && e.pending.frames[0].script in s.handles + e.scripts.value.Keys
              && Step(s, e).store == TrackSpec(s.store, e.pending, s.names + e.scripts.value)
    ensures e.BacktraceReplied? || e.ScriptsReplied?
  {
    if e.Ready? {
      RegistrationSends(s, e.argv, e.realpath, e.contents, e.acks);
    } else if e.Break? {
      BreakSends(s, e.ev);
    }
  }

  /** A halt that is already pending when registration completes is served
      at once: the last request sent is its backtrace (runner.js:63-67). */
  lemma PendingHaltServedOnArm(s: Session, argv: seq<string>, realpath: map<string, string>,
                               contents: map<string, string>, acks: seq<bool>)
    requires !s.destroyed && s.breakpoint.Some?
    requires Plan(argv, realpath, contents).Ok?
    requires FirstRejected(acks, |Plan(argv, realpath, contents).value|) == |Plan(argv, realpath, contents).value|
    ensures var r := SetBreakpointsStep(s, argv, realpath, contents, acks);
            && r.listeners == s.listeners + 1
            && r.sent == s.sent + Plan(argv, realpath, contents).value + [BacktraceRequest]
  {
  }

  /** A rejected registration stops the series at the rejected request and
      never adds the `backtrace` listener (runner.js:58-60). */
  lemma RejectedRegistrationStops(s: Session, argv: seq<string>, realpath: map<string, string>,
                                  contents: map<string, string>, acks: seq<bool>)
    requires Plan(argv, realpath, contents).Ok?
    requires FirstRejected(acks, |Plan(argv, realpath, contents).value|) < |Plan(argv, realpath, contents).value|
    ensures var r := SetBreakpointsStep(s, argv, realpath, contents, acks);
            var k := FirstRejected(acks, |Plan(argv, realpath, contents).value|);
            && r.listeners == s.listeners
            && r.sent == s.sent + Plan(argv, realpath, contents).value[..k + 1]
            && !acks[k]
  {
  }

  /** The client, its store, and the requests it has sent. */
  class Client {
    var destroyed: bool
    var breakpoint: Option<BreakEvent>
    var listeners: nat
    var handles: set<ScriptId>
    var names: map<ScriptId, string>
    var sent: seq<Request>
    const store: Store

    function State(): Session
      reads this, store
    {
      Session(destroyed, breakpoint, listeners, handles, names, store.State(), sent)
    }

    constructor ()
      ensures State() == Initial
      ensures fresh(store)
    {
      destroyed, breakpoint, listeners := false, None, 0;
      handles, names, sent := {}, map[], [];
      store := new Store();
    }

    /** runner.js:79-91, up to the request. */
    method Backtrace()
      modifies this
      ensures State() == BacktraceStep(old(State()))
    {
      if destroyed {
        return;
      }
      sent := sent + [BacktraceRequest];
    }

    /** The `break` event: record the halt, then run each `backtrace` listener. */
    method OnBreak(ev: BreakEvent)
      modifies this
      ensures State() == BreakStep(old(State()), ev)
    {
      breakpoint := Some(ev);
      ghost var s0 := State();
      var i := 0;
      while i < listeners
        invariant 0 <= i <= listeners && listeners == old(listeners)
        invariant State() == Fire(s0, i)
      {
        Backtrace();
        i := i + 1;
      }
    }

    /** runner.js:109-117, up to the request. */
    method ReqScripts()
      modifies this
      ensures State() == ReqScriptsStep(old(State()))
    {
      if destroyed {
        return;
      }
      sent := sent + [ScriptsRequest];
    }

    /** runner.js:71-76, up to the request. */
    method Resume()
      modifies this
      ensures State() == ResumeStep(old(State()))
    {
      sent := sent + [ContinueRequest];
    }

    /** runner.js:94-106. */
    method LogPos(bt: Snapshot)
      requires Inv(State()) && !Throws(State(), bt)
      modifies this, store
      ensures State() == LogPosStep(old(State()), bt)
    {
      if destroyed {
        return;
      }
      var frame := bt.frames[0];
      if frame.script !in handles {
        ReqScripts();
        return;
      }
      store.Track(bt, names);
      Resume();
    }

    /** The reply to a backtrace request (runner.js:85-90). */
    method OnBacktrace(reply: Result<Snapshot, string>)
      requires Inv(State()) && EventOk(State(), BacktraceReplied(reply))
      modifies this, store
      ensures State() == Step(old(State()), BacktraceReplied(reply))
    {
      match reply
      case Err(_) =>
      case Ok(bt) => LogPos(bt);
    }

    /** The reply to a scripts request (runner.js:113-116): the client files
        the scripts it was sent under their handles, then `logPos` runs again. */
    method OnScripts(reply: Result<map<ScriptId, string>, string>, pending: Snapshot)
      requires Inv(State()) && EventOk(State(), ScriptsReplied(reply, pending))
      modifies this, store
      ensures State() == Step(old(State()), ScriptsReplied(reply, pending))
    {
      match reply
      case Err(_) =>
      case Ok(table) =>
        handles := handles + table.Keys;
        names := names + table;
        LogPos(pending);
    }

    /** The reply to a continue request (runner.js:72-75). */
    method OnContinue(outcome: Result<(), string>)
      requires Inv(State())
      modifies this
      ensures State() == Step(old(State()), ContinueReplied(outcome))
    {
      match outcome
      case Err(_) =>
      case Ok(_) => breakpoint := None;
    }

    /** The `close` event: the client has torn the connection down. */
    method OnClose()
      requires Inv(State())
      modifies this
      ensures State() == Step(old(State()), Closed)
    {
      destroyed := true;
    }

    /** `async.series` over the registration requests (runner.js:58-60): each
        request goes out once the one before it has been accepted; the first
        rejection ends the series. */
    method Series(requests: seq<Request>, acks: seq<bool>) returns (accepted: bool)
      modifies this
      ensures var k := FirstRejected(acks, |requests|);
              && accepted == (k == |requests|)
              && sent == old(sent) + (if accepted then requests else requests[..k + 1])
      ensures destroyed == old(destroyed) && breakpoint == old(breakpoint) && listeners == old(listeners)
      ensures handles == old(handles) && names == old(names)
    {
      ghost var k := FirstRejected(acks, |requests|);
      var i := 0;
      while i < |requests|
        invariant 0 <= i <= |requests| && i <= k
        invariant sent == old(sent) + requests[..i]
        invariant destroyed == old(destroyed) && breakpoint == old(breakpoint) && listeners == old(listeners)
        invariant handles == old(handles) && names == old(names)
      {
        sent := sent + [requests[i]];
        if i < |acks| && !acks[i] {
          assert requests[..i + 1] == requests[..i] + [requests[i]];
          return false;
        }
        i := i + 1;
      }
      assert requests[..i] == requests;
      return true;
    }

    /** The `ready` event: `setBreakpoints()` (runner.js:29-68). */
    method OnReady(argv: seq<string>, realpath: map<string, string>, contents: map<string, string>, acks: seq<bool>)
      modifies this
      ensures State() == SetBreakpointsStep(old(State()), argv, realpath, contents, acks)
    {
      var plan := BreakpointRequests(argv, realpath, contents);
      if plan.Err? {
        return;
      }
      var accepted := Series(plan.value, acks);
      if !accepted {
        return;
      }
      listeners := listeners + 1;
      if breakpoint.Some? {
        Backtrace();
      }
    }
  }
}
