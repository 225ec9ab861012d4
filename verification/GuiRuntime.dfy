/**
 * The desktop window as a consumer of the runtime thread's events: connect, disconnect, and the tick that
 * drains the event channel and then handles what it drained, while the thread and its workers keep sending.
 */
module GuiRuntime {
  import opened Wrappers
  import opened Supervisor

  datatype ConnectionState = StateDisconnected | StateConnected | StateAuthFailed

  /** What the message handler is in the middle of: nothing, draining the channel, or handling what it drained. */
  datatype Doing = Idle | Draining | Handling

  datatype App = App(
    connection: ConnectionState,
    thread: Option<Phase>,                // the runtime handle, with where its thread stands
    events: Option<seq<RuntimeEvent>>,    // the receiving end of the channel, with what is queued in it
    pending: seq<RuntimeEvent>,
    doing: Doing)

  datatype Step =
    | ThreadActs(input: Input)
    | WorkerReports(event: RuntimeEvent)
    | TickBegins | Receive | ReceiveFails | Handle | HandlingEnds
    | Connect(valid: bool, started: bool)
    | Disconnect
    | CheckConnection

  const INITIAL := App(StateDisconnected, None, None, [], Idle)

  /**
   * A live thread reads its stop flag as unset: only stopping the runtime sets it, and that takes the handle
   * away and waits for the thread. What an abandoned thread or its workers send goes to a dropped channel.
   */
  predicate Enabled(a: App, s: Step) {
    match s
    case ThreadActs(input) => a.thread.Some? && a.events.Some? && Accepts(a.thread.value, input) && !SeesStop(input)
    case WorkerReports(event) => a.events.Some? && !FromSupervisor(event)
    case TickBegins => a.doing.Idle?
    case Receive => a.doing.Draining? && a.events.Some? && a.events.value != []
    case ReceiveFails => a.doing.Draining? && (a.events.None? || a.events.value == [])
    case Handle => a.doing.Handling? && a.pending != []
    case HandlingEnds => a.doing.Handling? && a.pending == []
    case Connect(_, _) => a.doing.Idle?
    case Disconnect => a.doing.Idle?
    case CheckConnection => a.doing.Idle?
  }

  function Stopped(a: App): App {
    a.(thread := None, events := None)
  }

  function Handled(a: App, event: RuntimeEvent): App {
    match event
    case Connected => a.(connection := StateConnected)
    case Reconnecting(_) => a.(connection := StateDisconnected)
    case Disconnected(_) => Stopped(a).(connection := StateDisconnected)
    case AuthFailed(_) => Stopped(a).(connection := StateAuthFailed)
    case _ => a
  }

  function Next(a: App, s: Step): App
    requires Enabled(a, s)
  {
    match s
    case ThreadActs(input) =>
      var (phase, sent) := Supervisor.Step(a.thread.value, input);
      a.(thread := Some(phase), events := Some(a.events.value + sent))
    case WorkerReports(event) => a.(events := Some(a.events.value + [event]))
    case TickBegins => a.(doing := Draining)
    case Receive => a.(events := Some(a.events.value[1..]), pending := a.pending + [a.events.value[0]])
    case ReceiveFails => a.(doing := Handling)
    case Handle => Handled(a.(pending := a.pending[1..]), a.pending[0])
    case HandlingEnds => a.(doing := Idle)
    case Connect(valid, started) =>
      if !valid then a.(connection := StateAuthFailed)
      else if started then a.(connection := StateDisconnected, thread := Some(AtHead), events := Some([]))
      else Stopped(a).(connection := StateDisconnected)
    case Disconnect => Stopped(a).(connection := StateDisconnected)
    case CheckConnection => a.(connection := StateDisconnected)
  }

  // ----- Runs -----

  /**
   * A state together with the history of the current runtime: the steps its thread took, what was sent into its
   * channel, what was handled, and whether the user has overridden the shown state since the last status event.
   */
  datatype Traced = Traced(app: App, inputs: seq<Input>, sent: seq<RuntimeEvent>, handled: seq<RuntimeEvent>, overridden: bool)

  function Extend(t: Traced, s: Step): Traced
    requires Enabled(t.app, s)
  {
    var next := t.(app := Next(t.app, s));
    match s
    case ThreadActs(input) =>
      next.(inputs := t.inputs + [input], sent := t.sent + Supervisor.Step(t.app.thread.value, input).1)
    case WorkerReports(event) => next.(sent := t.sent + [event])
    case Handle =>
      next.(handled := t.handled + [t.app.pending[0]], overridden := t.overridden && !FromSupervisor(t.app.pending[0]))
    case Connect(valid, _) =>
      if valid then Traced(next.app, [], [], [], false) else next.(overridden := true)
    case CheckConnection => next.(overridden := true)
    case Disconnect => next.(overridden := true)
    case _ => next
  }

  const START := Traced(INITIAL, [], [], [], false)

  /** The state that a run reaches; nothing if one of its steps is not enabled. */
  function Reached(run: seq<Step>): Option<Traced> {
    if run == [] then Some(START)
    else
      match Reached(run[..|run| - 1])
      case None => None
      case Some(t) => if Enabled(t.app, run[|run| - 1]) then Some(Extend(t, run[|run| - 1])) else None
  }

  /** The supervisor's events among all those of a channel. */
  function Control(events: seq<RuntimeEvent>): seq<RuntimeEvent> {
    if events == [] then []
    else Control(events[..|events| - 1]) + if FromSupervisor(events[|events| - 1]) then [events[|events| - 1]] else []
  }

  lemma {:induction false} ControlAppends(a: seq<RuntimeEvent>, b: seq<RuntimeEvent>)
    ensures Control(a + b) == Control(a) + Control(b)
  {
    if b == [] {
      assert a + b == a;
    } else {
      assert (a + b)[..|a + b| - 1] == a + b[..|b| - 1];
      ControlAppends(a, b[..|b| - 1]);
    }
  }

  lemma ControlOne(e: RuntimeEvent)
    ensures Control([e]) == if FromSupervisor(e) then [e] else []
  {
    assert [e][..0] == [] && Control([]) == [];
    assert [] + [e] == [e];
  }

  lemma {:induction false} ControlOfControl(events: seq<RuntimeEvent>)
    requires forall i :: 0 <= i < |events| ==> FromSupervisor(events[i])
    ensures Control(events) == events
  {
    if events != [] {
      ControlOfControl(events[..|events| - 1]);
    }
  }

  lemma {:induction false} ControlHolds(events: seq<RuntimeEvent>, e: RuntimeEvent)
    ensures e in Control(events) <==> e in events && FromSupervisor(e)
  {
    if events != [] {
      ControlHolds(events[..|events| - 1], e);
      assert events == events[..|events| - 1] + [events[|events| - 1]];
    }
  }

  /** What the supervisor's events say about the connection. */
  function Status(control: seq<RuntimeEvent>): ConnectionState {
    if control == [] then StateDisconnected
    else
      match control[|control| - 1]
      case Connected => StateConnected
      case AuthFailed(_) => StateAuthFailed
      case _ => StateDisconnected
  }

  // ----- The invariant -----

  ghost predicate Paired(a: App) {
    (a.thread.Some? <==> a.events.Some?) && (a.doing.Idle? ==> a.pending == [])
  }

  /** No event of the current runtime is lost, repeated or reordered on its way to the handler. */
  ghost predicate Conserved(t: Traced) {
    t.app.events.Some? ==> t.sent == t.handled + t.app.pending + t.app.events.value
  }

  /** The current thread's life is a run of the supervisor that sees no stop request. */
  ghost predicate Lives(t: Traced) {
    t.app.thread.Some? ==>
      && Live(AtHead, t.inputs) == Some(Life(t.app.thread.value, Control(t.sent)))
      && forall i :: 0 <= i < |t.inputs| ==> !SeesStop(t.inputs[i])
  }

  ghost predicate NothingTerminal(events: seq<RuntimeEvent>) {
    forall i :: 0 <= i < |events| ==> !IsTerminal(events[i])
  }

  ghost predicate Quiet(t: Traced) {
    && (t.app.thread.Some? ==> NothingTerminal(t.handled))
    && (t.app.thread.None? ==> Control(t.app.pending) == [] && t.app.connection != StateConnected)
  }

  ghost predicate Shows(t: Traced) {
    && (t.app.connection == StateConnected ==> Status(Control(t.handled)) == StateConnected)
    && (!t.overridden ==> t.app.connection == Status(Control(t.handled)))
  }

  ghost predicate Invariant(t: Traced) {
    Paired(t.app) && Conserved(t) && Lives(t) && Quiet(t) && Shows(t)
  }

  lemma ThreadKeeps(t: Traced, input: Input)
    requires Invariant(t) && Enabled(t.app, ThreadActs(input))
    ensures Invariant(Extend(t, ThreadActs(input)))
  {
    hide Live, Accepts, Supervisor.Step, SeesStop, Control;
    var phase := t.app.thread.value;
    var sent := Supervisor.Step(phase, input).1;
    OneMore(AtHead, t.inputs, input);
    StepShape(phase, input);
    ControlAppends(t.sent, sent);
    ControlOfControl(sent);
    assert t.handled + t.app.pending + (t.app.events.value + sent) == (t.handled + t.app.pending + t.app.events.value) + sent;
  }

  lemma WorkerKeeps(t: Traced, event: RuntimeEvent)
    requires Invariant(t) && Enabled(t.app, WorkerReports(event))
    ensures Invariant(Extend(t, WorkerReports(event)))
  {
    hide Live, SeesStop;
    assert (t.sent + [event])[..|t.sent|] == t.sent;
    assert Control(t.sent + [event]) == Control(t.sent);
    assert t.handled + t.app.pending + (t.app.events.value + [event]) == (t.handled + t.app.pending + t.app.events.value) + [event];
  }

  /** Once the supervisor's terminal event is handled, nothing of the supervisor is left in the batch. */
  lemma NothingAfterTerminal(t: Traced)
    requires Invariant(t) && Enabled(t.app, Handle) && t.app.thread.Some? && IsTerminal(t.app.pending[0])
    ensures Control(t.app.pending[1..]) == []
  {
    hide Live, SeesStop, Control;
    var e, rest := t.app.pending[0], t.app.pending[1..];
    var before, after := t.handled + [e], rest + t.app.events.value;
    assert t.sent == before + after;
    TerminalEventIsLast(t.inputs);
    ControlAppends(before, after);
    ControlAppends(t.handled, [e]);
    ControlOne(e);
    ControlAppends(rest, t.app.events.value);
    LastIsTerminal(Control(t.sent), Control(t.handled), e, Control(after));
  }

  lemma LastIsTerminal(control: seq<RuntimeEvent>, a: seq<RuntimeEvent>, e: RuntimeEvent, b: seq<RuntimeEvent>)
    requires TerminalLast(control) && control == a + [e] + b && IsTerminal(e)
    ensures b == []
  {
    assert control[|a|] == e;
  }

  /** The last word after one more handled event. */
  lemma StatusAfter(handled: seq<RuntimeEvent>, e: RuntimeEvent)
    ensures Control(handled + [e]) == if FromSupervisor(e) then Control(handled) + [e] else Control(handled)
    ensures FromSupervisor(e) ==> Status(Control(handled + [e])) == Status([e])
  {
    hide Control;
    ControlAppends(handled, [e]);
    ControlOne(e);
    assert Control(handled) + [] == Control(handled);
  }

  lemma {:induction false} HandleKeeps(t: Traced)
    requires Invariant(t) && Enabled(t.app, Handle)
    ensures Invariant(Extend(t, Handle))
  {
    hide Live, SeesStop, Control;
    var e, rest := t.app.pending[0], t.app.pending[1..];
    assert t.app.pending == [e] + rest;
    StatusAfter(t.handled, e);
    if t.app.thread.None? {
      ControlHolds(t.app.pending, e);
      ControlAppends([e], rest);
      HandleWithoutThread(t);
    } else if IsTerminal(e) {
      NothingAfterTerminal(t);
    } else {
      assert t.handled + t.app.pending + t.app.events.value == (t.handled + [e]) + rest + t.app.events.value;
    }
  }

  lemma HandleWithoutThread(t: Traced)
    requires Invariant(t) && Enabled(t.app, Handle) && t.app.thread.None? && !FromSupervisor(t.app.pending[0])
    requires Control(t.app.pending[1..]) == [] && Control(t.handled + [t.app.pending[0]]) == Control(t.handled)
    ensures Invariant(Extend(t, Handle))
  {
    hide Live, SeesStop, Control, Status;
  }

  lemma {:induction false} DrainKeeps(t: Traced)
    requires Invariant(t) && Enabled(t.app, Receive)
    ensures Invariant(Extend(t, Receive))
  {
    hide Live, SeesStop, Control, Status;
    var queue := t.app.events.value;
    assert t.handled + t.app.pending + queue == t.handled + (t.app.pending + [queue[0]]) + queue[1..];
  }

  lemma {:induction false} UserKeeps(t: Traced, s: Step)
    requires Invariant(t) && Enabled(t.app, s)
    requires s.Connect? || s.Disconnect? || s.CheckConnection? || s.TickBegins? || s.ReceiveFails? || s.HandlingEnds?
    ensures Invariant(Extend(t, s))
  {
    hide SeesStop;
  }

  lemma InvariantAtStart()
    ensures Invariant(START)
  {}

  lemma {:induction false} RunsKeepInvariant(run: seq<Step>)
    requires Reached(run).Some?
    ensures Invariant(Reached(run).value)
  {
    hide Invariant, Enabled, Extend;
    if run == [] {
      InvariantAtStart();
    } else {
      RunsKeepInvariant(run[..|run| - 1]);
      var t, s := Reached(run[..|run| - 1]).value, run[|run| - 1];
      match s
      case ThreadActs(input) => ThreadKeeps(t, input);
      case WorkerReports(event) => WorkerKeeps(t, event);
      case Handle => HandleKeeps(t);
      case Receive => DrainKeeps(t);
      case _ => UserKeeps(t, s);
    }
  }

  /**
   * In every reachable state a connection shown as up has a runtime handle and a channel, the last status event
   * handled was the announcement of that connection, and if the thread has ended meanwhile, the event that says so
   * is still on its way to the handler.
   */
  lemma {:induction false} ConnectedMeansLive(run: seq<Step>)
    requires Reached(run).Some? && Reached(run).value.app.connection == StateConnected
    ensures var t := Reached(run).value;
            && t.app.thread.Some? && t.app.events.Some?
            && Status(Control(t.handled)) == StateConnected
            && (t.app.thread.value.Ended? ==> EndsTerminally(Control(t.app.pending + t.app.events.value)))
  {
    hide Live, SeesStop;
    RunsKeepInvariant(run);
    if Reached(run).value.app.thread == Some(Ended) {
      EndedThreadIsAnnounced(run);
    }
  }

  /** A held handle whose thread has ended comes with its terminal event, not handled yet. */
  lemma {:induction false} EndedThreadIsAnnounced(run: seq<Step>)
    requires Reached(run).Some? && Reached(run).value.app.thread == Some(Ended)
    ensures Reached(run).value.app.events.Some?
    ensures EndsTerminally(Control(Reached(run).value.app.pending + Reached(run).value.app.events.value))
  {
    hide Live, SeesStop, Reached;
    RunsKeepInvariant(run);
    var t := Reached(run).value;
    var rest := t.app.pending + t.app.events.value;
    TerminalEventIsLast(t.inputs);
    assert t.inputs != [] && EndsTerminally(Control(t.sent)) by { NotYetEnded(); }
    assert t.sent == t.handled + rest;
    ControlAppends(t.handled, rest);
    if Control(rest) == [] {
      var last := Control(t.handled)[|Control(t.handled)| - 1];
      assert last in Control(t.handled);
      ControlHolds(t.handled, last);
    }
  }

  /**
   * The window shows what is: when every status event has been handled and the user has not overridden the state
   * since, it shows a connection if and only if the thread is polling one that has been acknowledged.
   */
  lemma {:induction false} CaughtUpShowsConnected(run: seq<Step>)
    requires Reached(run).Some? && !Reached(run).value.overridden
    requires var a := Reached(run).value.app;
             Control(a.pending) == [] && (a.events.Some? ==> Control(a.events.value) == [])
    ensures var a := Reached(run).value.app;
            a.connection == StateConnected <==> a.thread == Some(Polling(true))
  {
    hide Live, SeesStop, Reached, Control;
    RunsKeepInvariant(run);
    var t := Reached(run).value;
    if t.app.thread.Some? {
      AnnouncedIffPolling(t.inputs);
      ControlAppends(t.handled + t.app.pending, t.app.events.value);
      ControlAppends(t.handled, t.app.pending);
      assert Control(t.handled) + [] + [] == Control(t.handled);
    }
  }

  /**
   * What the window shows, unless the user has overridden it since: an authentication failure exactly if the last
   * status event handled says so, a connection exactly if that event announced one, and no connection after any
   * other one or none.
   */
  lemma {:induction false} ShownStateIsLastEvent(run: seq<Step>)
    requires Reached(run).Some? && !Reached(run).value.overridden
    ensures var t := Reached(run).value;
            var control := Control(t.handled);
            && (t.app.connection == StateAuthFailed <==> control != [] && control[|control| - 1].AuthFailed?)
            && (t.app.connection == StateConnected <==> control != [] && control[|control| - 1].Connected?)
            && (t.app.connection == StateDisconnected <==>
                control == [] || control[|control| - 1].Disconnected? || control[|control| - 1].Reconnecting?)
  {
    hide Live, SeesStop, Reached;
    RunsKeepInvariant(run);
    var control := Control(Reached(run).value.handled);
    if control != [] {
      ControlHolds(Reached(run).value.handled, control[|control| - 1]);
    }
  }

  lemma NotYetEnded()
    ensures Live(AtHead, []) == Some(Life(AtHead, []))
  {}

  /**
   * What is sent into the current channel reaches the handler in order and without loss or repetition, and what the
   * supervisor sends into it is one life of the runtime thread: at most one terminal event, and nothing after it.
   */
  lemma {:induction false} EventsArriveInOrder(run: seq<Step>)
    requires Reached(run).Some? && Reached(run).value.app.events.Some?
    ensures var t := Reached(run).value;
            && t.sent == t.handled + t.app.pending + t.app.events.value
            && TerminalLast(Control(t.sent))
            && NothingTerminal(t.handled)
  {
    hide Live, SeesStop;
    RunsKeepInvariant(run);
    TerminalEventIsLast(Reached(run).value.inputs);
  }

  // ----- A tick collects a thread that has ended -----

  /** The steps of one tick, without the step that ends it. */
  predicate WithinTick(tick: seq<Step>) {
    && tick != [] && tick[0].TickBegins?
    && forall k :: 0 < k < |tick| ==> !tick[k].HandlingEnds?
  }

  ghost predicate Collecting(a: App) {
    match a.doing
    case Idle => false
    case Draining =>
      a.thread == Some(Ended) && a.events.Some? && exists e :: e in a.pending + a.events.value && IsTerminal(e)
    case Handling =>
      a.thread.None? || (a.thread == Some(Ended) && exists e :: e in a.pending && IsTerminal(e))
  }

  lemma CollectingStep(a: App, s: Step)
    requires Collecting(a) && Enabled(a, s) && !s.HandlingEnds? && Paired(a)
    ensures Collecting(Next(a, s))
  {
    hide SeesStop, Supervisor.Step;
    if a.doing.Draining? || a.thread.Some? {
      var e :| e in a.pending + (if a.doing.Draining? then a.events.value else []) && IsTerminal(e);
      if s.Receive? {
        assert a.events.value == [a.events.value[0]] + a.events.value[1..];
        assert e in (a.pending + [a.events.value[0]]) + a.events.value[1..];
      } else if s.Handle? {
        assert a.pending == [a.pending[0]] + a.pending[1..];
        if a.pending[0] != e && !IsTerminal(a.pending[0]) {
          assert e in a.pending[1..];
        }
      } else if s.WorkerReports? && a.doing.Draining? {
        assert e in a.pending + (a.events.value + [s.event]);
      } else if s.ReceiveFails? {
        assert e in a.pending;
      }
    }
  }

  lemma {:induction false} TickCollects(run: seq<Step>, tick: seq<Step>)
    requires WithinTick(tick) && Reached(run).Some? && Reached(run).value.app.thread == Some(Ended)
    requires Reached(run + tick).Some?
    ensures Collecting(Reached(run + tick).value.app)
  {
    hide Live, SeesStop, Accepts, Supervisor.Step, Enabled, Next, Collecting;
    var front := tick[..|tick| - 1];
    assert (run + tick)[..|run + tick| - 1] == run + front;
    if |tick| == 1 {
      assert run + front == run;
      EndedThreadIsAnnounced(run);
      BeginsCollecting(Reached(run).value.app);
    } else {
      TickCollects(run, front);
      RunsKeepInvariant(run + front);
      CollectingStep(Reached(run + front).value.app, tick[|tick| - 1]);
    }
  }

  lemma BeginsCollecting(a: App)
    requires Enabled(a, TickBegins) && a.thread == Some(Ended) && a.events.Some?
    requires EndsTerminally(Control(a.pending + a.events.value))
    ensures Collecting(Next(a, TickBegins))
  {
    var control := Control(a.pending + a.events.value);
    ControlHolds(a.pending + a.events.value, control[|control| - 1]);
  }

  /** A thread that has ended by itself when a tick begins is released by the time that tick is over. */
  lemma {:induction false} TickReleasesEndedThread(run: seq<Step>, tick: seq<Step>)
    requires WithinTick(tick) && Reached(run).Some? && Reached(run).value.app.thread == Some(Ended)
    requires Reached(run + tick + [HandlingEnds]).Some?
    ensures var app := Reached(run + tick + [HandlingEnds]).value.app;
            app.thread.None? && app.events.None? && app.connection != StateConnected
  {
    hide Live, SeesStop;
    assert (run + tick + [HandlingEnds])[..|run + tick|] == run + tick;
    TickCollects(run, tick);
    RunsKeepInvariant(run + tick + [HandlingEnds]);
  }

  // ----- The window's methods -----

  /** A step of the runtime thread or of a worker. */
  predicate IsOutside(s: Step) {
    s.ThreadActs? || s.WorkerReports?
  }

  ghost predicate HasArrived(s: Step, arrivals: seq<seq<Step>>) {
    exists k, i :: 0 <= k < |arrivals| && 0 <= i < |arrivals[k]| && arrivals[k][i] == s
  }

  /** Receives, and steps of the thread and the workers out of the arrivals. */
  ghost predicate IsDrain(steps: seq<Step>, arrivals: seq<seq<Step>>) {
    forall j :: 0 <= j < |steps| ==> steps[j].Receive? || (IsOutside(steps[j]) && HasArrived(steps[j], arrivals))
  }

  /** A tick past its drain, up to the step that ends it. */
  predicate IsOneTick(tick: seq<Step>) {
    WithinTick(tick) && |tick| >= 2 && forall k :: 0 < k < |tick| ==> !tick[k].TickBegins?
  }

  lemma DrainMakesTick(steps: seq<Step>, arrivals: seq<seq<Step>>, handles: seq<Step>)
    requires IsDrain(steps, arrivals) && forall k :: 0 <= k < |handles| ==> handles[k].Handle?
    ensures IsOneTick([TickBegins] + steps + [ReceiveFails] + handles)
  {}

  lemma TickWithin(tick: seq<Step>)
    requires IsOneTick(tick)
    ensures WithinTick(tick)
  {}

  /** The state shown after these events: the last one that speaks of the connection decides. */
  function StateAfter(before: ConnectionState, events: seq<RuntimeEvent>): ConnectionState {
    if Control(events) == [] then before else Status(Control(events))
  }

  lemma StateAfterOneMore(before: ConnectionState, events: seq<RuntimeEvent>, event: RuntimeEvent)
    ensures StateAfter(before, events + [event]) == StateAfter(StateAfter(before, events), [event])
  {
    hide Control;
    ControlAppends(events, [event]);
    ControlOne(event);
  }

  lemma StateAfterOne(before: ConnectionState, event: RuntimeEvent)
    ensures StateAfter(before, [event]) ==
            match event
            case Connected => StateConnected
            case AuthFailed(_) => StateAuthFailed
            case Reconnecting(_) => StateDisconnected
            case Disconnected(_) => StateDisconnected
            case _ => before
  {
    hide Control;
    ControlOne(event);
  }

  lemma NoStateAfterNothing(before: ConnectionState)
    ensures StateAfter(before, []) == before
  {}

  lemma NothingDrained(arrivals: seq<seq<Step>>)
    ensures IsDrain([], arrivals)
  {}

  lemma DrainGrows(a: seq<Step>, b: seq<Step>, arrivals: seq<seq<Step>>)
    requires IsDrain(a, arrivals) && (IsDrain(b, arrivals) || b == [Receive])
    ensures IsDrain(a + b, arrivals)
  {}

  class YeonjangGuiApp {
    var connectionState: ConnectionState
    var mqttRuntime: Option<Phase>
    var mqttRuntimeEvents: Option<seq<RuntimeEvent>>
    /** The machine steps that account for everything so far. */
    ghost var run: seq<Step>

    /** Everything so far is a run of the machine, which now stands at this state with these drained events. */
    ghost predicate At(doing: Doing, pending: seq<RuntimeEvent>)
      reads this
    {
      Reached(run).Some? && Reached(run).value.app == App(connectionState, mqttRuntime, mqttRuntimeEvents, pending, doing)
    }

    constructor ()
      ensures At(Idle, []) && run == []
    {
      connectionState, mqttRuntime, mqttRuntimeEvents, run := StateDisconnected, None, None, [];
    }

    ghost method Record(step: Step)
      requires Reached(run).Some? && Enabled(Reached(run).value.app, step)
      modifies this`run
      ensures run == old(run) + [step]
      ensures Reached(run) == Some(Extend(old(Reached(run).value), step))
    {
      assert (run + [step])[..|run|] == run;
      run := run + [step];
    }

    /** A step of the runtime thread or of a worker; one that cannot happen now does not. */
    method Outside(step: Step, ghost doing: Doing, ghost pending: seq<RuntimeEvent>) returns (taken: bool)
      requires At(doing, pending)
      modifies this
      ensures At(doing, pending) && connectionState == old(connectionState)
      ensures taken <==> IsOutside(step) && Enabled(old(Reached(run)).value.app, step)
      ensures run == if taken then old(run) + [step] else old(run)
    {
      taken := false;
      match step {
        case ThreadActs(input) =>
          if mqttRuntime.Some? && mqttRuntimeEvents.Some? && Accepts(mqttRuntime.value, input) && !SeesStop(input) {
            Record(step);
            var (phase, sent) := Supervisor.Step(mqttRuntime.value, input);
            mqttRuntime, mqttRuntimeEvents := Some(phase), Some(mqttRuntimeEvents.value + sent);
            taken := true;
          }
        case WorkerReports(event) =>
          if mqttRuntimeEvents.Some? && !FromSupervisor(event) {
            Record(step);
            mqttRuntimeEvents := Some(mqttRuntimeEvents.value + [event]);
            taken := true;
          }
        case _ =>
      }
    }

    method StopRuntime()
      modifies this`mqttRuntime, this`mqttRuntimeEvents
      ensures mqttRuntime.None? && mqttRuntimeEvents.None?
    {
      mqttRuntimeEvents := None;
      mqttRuntime := None;
    }

    method ConnectNow(valid: bool, started: bool)
      requires At(Idle, [])
      modifies this
      ensures At(Idle, []) && run == old(run) + [Connect(valid, started)]
      ensures connectionState == if valid then StateDisconnected else StateAuthFailed
      ensures !valid ==> mqttRuntime == old(mqttRuntime) && mqttRuntimeEvents == old(mqttRuntimeEvents)
      ensures valid && started ==> mqttRuntime == Some(AtHead) && mqttRuntimeEvents == Some([])
      ensures valid && !started ==> mqttRuntime.None? && mqttRuntimeEvents.None?
    {
      Record(Connect(valid, started));
      if !valid {
        connectionState := StateAuthFailed;
        return;
      }
      StopRuntime();
      if started {
        mqttRuntime, mqttRuntimeEvents := Some(AtHead), Some([]);
      }
      connectionState := StateDisconnected;
    }

    method DisconnectNow()
      requires At(Idle, [])
      modifies this
      ensures At(Idle, []) && run == old(run) + [Disconnect]
      ensures connectionState == StateDisconnected && mqttRuntime.None? && mqttRuntimeEvents.None?
    {
      Record(Disconnect);
      StopRuntime();
      connectionState := StateDisconnected;
    }

    method Check()
      requires At(Idle, [])
      modifies this
      ensures At(Idle, []) && run == old(run) + [CheckConnection]
      ensures connectionState == StateDisconnected
      ensures mqttRuntime == old(mqttRuntime) && mqttRuntimeEvents == old(mqttRuntimeEvents)
    {
      Record(CheckConnection);
      connectionState := StateDisconnected;
    }

    /**
     * `arrivals[k]` is what the thread and the workers do before the k-th look into the channel. The steps taken are
     * such arrivals and receives, and at last the look that finds nothing.
     */
    method DrainEvents(arrivals: seq<seq<Step>>) returns (pending: seq<RuntimeEvent>, ghost steps: seq<Step>)
      requires At(Draining, [])
      modifies this
      ensures At(Handling, pending) && IsDrain(steps, arrivals) && connectionState == old(connectionState)
      ensures run == old(run) + steps + [ReceiveFails]
    {
      hide Reached, IsDrain, Enabled;
      pending, steps := [], [];
      NothingDrained(arrivals);
      var k := 0;
      while true
        invariant 0 <= k <= |arrivals|
        invariant At(Draining, pending) && IsDrain(steps, arrivals) && run == old(run) + steps
        invariant connectionState == old(connectionState)
        decreases |arrivals| - k, if mqttRuntimeEvents.Some? then |mqttRuntimeEvents.value| else 0
      {
        if k < |arrivals| {
          ghost var more := Arrive(arrivals, k, Draining, pending);
          DrainGrows(steps, more, arrivals);
          steps := steps + more;
          k := k + 1;
        }
        if mqttRuntimeEvents.None? || mqttRuntimeEvents.value == [] {
          LookInVain(pending);
          return;
        }
        var event := TryRecv(pending);
        DrainGrows(steps, [Receive], arrivals);
        steps := steps + [Receive];
        pending := pending + [event];
      }
    }

    /** A look into a channel that holds something. */
    method TryRecv(ghost pending: seq<RuntimeEvent>) returns (event: RuntimeEvent)
      requires At(Draining, pending) && mqttRuntimeEvents.Some? && mqttRuntimeEvents.value != []
      modifies this
      ensures At(Draining, pending + [event]) && run == old(run) + [Receive]
      ensures mqttRuntimeEvents.Some? && [event] + mqttRuntimeEvents.value == old(mqttRuntimeEvents).value
      ensures connectionState == old(connectionState)
    {
      Record(Receive);
      event := mqttRuntimeEvents.value[0];
      mqttRuntimeEvents := Some(mqttRuntimeEvents.value[1..]);
    }

    /** A look into a channel that is gone or empty. */
    ghost method LookInVain(pending: seq<RuntimeEvent>)
      requires At(Draining, pending) && (mqttRuntimeEvents.None? || mqttRuntimeEvents.value == [])
      modifies this`run
      ensures At(Handling, pending) && run == old(run) + [ReceiveFails]
    {
      Record(ReceiveFails);
    }

    /** What happens outside before the k-th look. */
    method Arrive(arrivals: seq<seq<Step>>, k: nat, ghost doing: Doing, ghost pending: seq<RuntimeEvent>)
      returns (ghost steps: seq<Step>)
      requires At(doing, pending) && k < |arrivals|
      modifies this
      ensures At(doing, pending) && IsDrain(steps, arrivals) && run == old(run) + steps
      ensures connectionState == old(connectionState)
    {
      steps := [];
      for i := 0 to |arrivals[k]|
        invariant At(doing, pending) && IsDrain(steps, arrivals) && run == old(run) + steps
        invariant connectionState == old(connectionState)
      {
        ghost var before := run;
        var taken := Outside(arrivals[k][i], doing, pending);
        if taken {
          assert HasArrived(arrivals[k][i], arrivals);
          steps := steps + [arrivals[k][i]];
        }
      }
    }

    method HandleEvent(event: RuntimeEvent, ghost rest: seq<RuntimeEvent>)
      requires At(Handling, [event] + rest)
      modifies this
      ensures At(Handling, rest) && run == old(run) + [Handle]
      ensures connectionState == StateAfter(old(connectionState), [event])
      ensures if IsTerminal(event) then mqttRuntime.None? && mqttRuntimeEvents.None?
              else mqttRuntime == old(mqttRuntime) && mqttRuntimeEvents == old(mqttRuntimeEvents)
    {
      hide Reached, StateAfter;
      Record(Handle);
      assert ([event] + rest)[1..] == rest;
      StateAfterOne(connectionState, event);
      match event {
        case Connected => connectionState := StateConnected;
        case Reconnecting(_) => connectionState := StateDisconnected;
        case Disconnected(_) =>
          StopRuntime();
          connectionState := StateDisconnected;
        case AuthFailed(_) =>
          StopRuntime();
          connectionState := StateAuthFailed;
        case _ =>
      }
    }

    /**
     * Exactly one whole tick: it drains until the channel looks empty and handles all it drained, so a thread that
     * had ended by itself is released.
     */
    method ProcessRuntimeEvents(arrivals: seq<seq<Step>>) returns (ghost tick: seq<Step>, ghost handled: seq<RuntimeEvent>)
      requires At(Idle, [])
      modifies this
      ensures At(Idle, []) && run == old(run) + tick + [HandlingEnds]
      ensures IsOneTick(tick)
      ensures old(mqttRuntime) == Some(Ended) ==> mqttRuntime.None? && connectionState != StateConnected
      ensures connectionState == StateAfter(old(connectionState), handled)
      ensures forall event :: event in handled && IsTerminal(event) ==>
                mqttRuntime.None? && mqttRuntimeEvents.None?
    {
      hide Reached, WithinTick, IsOneTick, IsDrain, Enabled, Next;
      ghost var before, ended := run, mqttRuntime == Some(Ended);
      BeginTick();
      var pending, steps := DrainEvents(arrivals);
      ghost var handles := HandleAll(pending);
      handled := pending;
      tick := [TickBegins] + steps + [ReceiveFails] + handles;
      DrainMakesTick(steps, arrivals, handles);
      assert run == before + tick;
      EndTick();
      if ended {
        TickWithin(tick);
        TickReleasesEndedThread(before, tick);
      }
    }

    ghost method BeginTick()
      requires At(Idle, [])
      modifies this`run
      ensures At(Draining, []) && run == old(run) + [TickBegins]
    {
      Record(TickBegins);
    }

    ghost method EndTick()
      requires At(Handling, [])
      modifies this`run
      ensures At(Idle, []) && run == old(run) + [HandlingEnds]
    {
      Record(HandlingEnds);
    }

    /** Handles the drained events in order. */
    method HandleAll(pending: seq<RuntimeEvent>) returns (ghost handles: seq<Step>)
      requires At(Handling, pending)
      modifies this
      ensures At(Handling, []) && run == old(run) + handles
      ensures |handles| == |pending| && forall k :: 0 <= k < |handles| ==> handles[k].Handle?
      ensures connectionState == StateAfter(old(connectionState), pending)
      ensures forall event :: event in pending && IsTerminal(event) ==> mqttRuntime.None? && mqttRuntimeEvents.None?
    {
      hide Reached, Enabled, Next, Control, Status, StateAfter;
      NoStateAfterNothing(connectionState);
      handles := [];
      assert pending[0..] == pending;
      for i := 0 to |pending|
        invariant At(Handling, pending[i..]) && run == old(run) + handles
        invariant |handles| == i && forall k :: 0 <= k < |handles| ==> handles[k].Handle?
        invariant connectionState == StateAfter(old(connectionState), pending[..i])
        invariant forall j :: 0 <= j < i && IsTerminal(pending[j]) ==> mqttRuntime.None? && mqttRuntimeEvents.None?
      {
        StateAfterOneMore(old(connectionState), pending[..i], pending[i]);
        assert pending[..i + 1] == pending[..i] + [pending[i]];
        assert pending[i..] == [pending[i]] + pending[i + 1..];
        HandleEvent(pending[i], pending[i + 1..]);
        handles := handles + [Handle];
      }
      assert pending[|pending|..] == [] && pending[..|pending|] == pending;
    }
  }
}
